/** The account slice of the web client's state: per group a committed table and an overlay of
    accounts being edited, with negative ids for accounts the server does not know yet
    (frontend/libs/redux/src/lib/accounts/accountSlice.ts and utils.ts). */
module AccountSlice {
  import opened Sorting
  import opened Wrappers

  type Id = int
  type GroupId = int

  /** The fields that no reducer looks at are left out. */
  datatype Account = Account(id: Id, group: GroupId, deleted: bool, isWip: bool, name: string)

  /** The fields of a partial update that are present. */
  datatype Update = Update(id: Id, group: GroupId, deleted: Option<bool>, name: Option<string>)

  datatype Table = Table(byId: map<Id, Account>, ids: seq<Id>)

  datatype Status = Loading | Initialized | Failed

  datatype GroupState = GroupState(accounts: Table, wip: Table, status: Status)

  datatype State = State(byGroupId: map<GroupId, GroupState>, nextLocalAccountId: int)

  /** Reducer actions, and the synchronous start of the createAccount thunk, which takes the next
      local id; its account arrives with CreateAccountFulfilled. */
  datatype Action =
    | CopyAccount(group: GroupId, id: Id)
    | CreateAccountStarted
    | AccountAdded(account: Account)
    | AccountsUpdated
    | AccountEditStarted(group: GroupId, id: Id)
    | WipAccountUpdated(update: Update)
    | DiscardAccountChange(group: GroupId, id: Id)
    | FetchAccountsPending(group: GroupId)
    | FetchAccountsRejected(group: GroupId)
    | FetchAccountsFulfilled(group: GroupId, fetched: seq<Account>)
    | FetchAccountFulfilled(account: Account)
    | SaveAccountFulfilled(group: GroupId, account: Account, oldAccountId: Id)
    | CreateAccountFulfilled(group: GroupId, account: Account)
    | DeleteAccountFulfilled(group: GroupId, id: Id, result: Option<Account>)
    | LeaveGroupFulfilled(group: GroupId)

  const INITIAL := State(map[], -1)
  const EMPTY_TABLE := Table(map[], [])

  // ---------- tables ----------

  function AddEntity(t: Table, account: Account): Table {
    Table(t.byId[account.id := account], if account.id in t.byId then t.ids else t.ids + [account.id])
  }

  function Without(ids: seq<Id>, id: Id): seq<Id> {
    if ids == [] then []
    else Without(ids[..|ids| - 1], id) + if ids[|ids| - 1] != id then [ids[|ids| - 1]] else []
  }

  function RemoveEntity(t: Table, id: Id): Table {
    if id in t.byId then Table(t.byId - {id}, Without(t.ids, id)) else t
  }

  function Fetched(accounts: seq<Account>): map<Id, Account> {
    if accounts == [] then map[]
    else Fetched(accounts[..|accounts| - 1])[accounts[|accounts| - 1].id := accounts[|accounts| - 1].(isWip := false)]
  }

  function IdsOf(accounts: seq<Account>): seq<Id> {
    seq(|accounts|, i requires 0 <= i < |accounts| => accounts[i].id)
  }

  // ---------- selectors ----------

  function Lookup(t: Table, ids: seq<Id>): seq<Account>
    requires Listed(t, ids)
  {
    seq(|ids|, i requires 0 <= i < |ids| => t.byId[ids[i]])
  }

  function Visible(accounts: seq<Account>): seq<Account> {
    if accounts == [] then []
    else Visible(accounts[..|accounts| - 1]) + if accounts[|accounts| - 1].deleted then [] else [accounts[|accounts| - 1]]
  }

  function NotEdited(ids: seq<Id>, wip: map<Id, Account>): seq<Id> {
    if ids == [] then []
    else NotEdited(ids[..|ids| - 1], wip) + if ids[|ids| - 1] in wip then [] else [ids[|ids| - 1]]
  }

  ghost predicate Listed(t: Table, ids: seq<Id>) {
    forall i :: 0 <= i < |ids| ==> ids[i] in t.byId
  }

  lemma AllListed(s: GroupState)
    requires Matches(s.wip) && Matches(s.accounts)
    ensures Listed(s.wip, s.wip.ids) && Listed(s.accounts, NotEdited(s.accounts.ids, s.wip.byId))
  {
    var rest := NotEdited(s.accounts.ids, s.wip.byId);
    NotEditedMembers(s.accounts.ids, s.wip.byId);
    forall i | 0 <= i < |rest| ensures rest[i] in s.accounts.byId { assert Has(rest, rest[i]); }
  }

  /** selectGroupAccounts: the overlay first, then the committed accounts it does not cover. */
  function SelectGroupAccounts(s: GroupState): seq<Account>
    requires Matches(s.wip) && Matches(s.accounts)
  {
    AllListed(s);
    Visible(Lookup(s.wip, s.wip.ids) + Lookup(s.accounts, NotEdited(s.accounts.ids, s.wip.byId)))
  }

  /** selectAccountById */
  function SelectAccountById(s: GroupState, id: Id): Option<Account> {
    if id in s.wip.byId then Some(s.wip.byId[id])
    else if id in s.accounts.byId then Some(s.accounts.byId[id])
    else None
  }

  // ---------- the reducer ----------

  function Put(state: State, group: GroupId, s: GroupState): State {
    state.(byGroupId := state.byGroupId[group := s])
  }

  function ToWip(account: Account): Account {
    account.(isWip := true)
  }

  function Merge(account: Account, u: Update): Account {
    account.(deleted := if u.deleted.Some? then u.deleted.value else account.deleted,
             name := if u.name.Some? then u.name.value else account.name)
  }

  /** wipAccountUpdated on a group that is present; None when it throws.  An account that is not in
      the overlay yet is pushed to its ids twice. */
  function UpdateWip(s: GroupState, u: Update): Option<GroupState> {
    if u.id in s.wip.byId then
      Some(s.(wip := s.wip.(byId := s.wip.byId[u.id := Merge(s.wip.byId[u.id], u)])))
    else if u.id in s.accounts.byId then
      Some(s.(wip := Table(s.wip.byId[u.id := Merge(ToWip(s.accounts.byId[u.id]), u)], s.wip.ids + [u.id] + [u.id])))
    else None
  }

  function GroupOf(a: Action): Option<GroupId> {
    match a
    case CopyAccount(group, _) => Some(group)
    case AccountAdded(account) => Some(account.group)
    case AccountEditStarted(group, _) => Some(group)
    case WipAccountUpdated(update) => Some(update.group)
    case DiscardAccountChange(group, _) => Some(group)
    case FetchAccountsRejected(group) => Some(group)
    case FetchAccountFulfilled(account) => Some(account.group)
    case SaveAccountFulfilled(group, _, _) => Some(group)
    case CreateAccountFulfilled(group, _) => Some(group)
    case DeleteAccountFulfilled(group, _, _) => Some(group)
    case _ => None
  }

  /** A reducer throws when its group is not loaded, and when an update names an unknown account. */
  predicate Throws(state: State, a: Action) {
    || (GroupOf(a).Some? && GroupOf(a).value !in state.byGroupId)
    || (a.WipAccountUpdated? && a.update.group in state.byGroupId
        && UpdateWip(state.byGroupId[a.update.group], a.update).None?)
  }

  function InitialGroup(): GroupState {
    GroupState(EMPTY_TABLE, EMPTY_TABLE, Loading)
  }

  function ReduceGroup(s: GroupState, a: Action): GroupState {
    match a
    case AccountAdded(account) => if account.id in s.accounts.byId then s else s.(accounts := AddEntity(s.accounts, account))
    case AccountEditStarted(_, id) =>
      if id in s.wip.byId || id !in s.accounts.byId then s
      else s.(wip := Table(s.wip.byId[id := ToWip(s.accounts.byId[id])], s.wip.ids + [id]))
    case WipAccountUpdated(u) => var r := UpdateWip(s, u); if r.Some? then r.value else s
    case DiscardAccountChange(_, id) => s.(wip := RemoveEntity(s.wip, id))
    case FetchAccountsRejected(_) => s.(status := Failed)
    case FetchAccountFulfilled(account) => s.(accounts := AddEntity(s.accounts, account))
    case SaveAccountFulfilled(_, account, oldId) =>
      s.(accounts := AddEntity(s.accounts, account.(isWip := false)), wip := RemoveEntity(s.wip, oldId))
    case CreateAccountFulfilled(_, account) => s.(wip := AddEntity(s.wip, account))
    case DeleteAccountFulfilled(_, id, result) =>
      s.(accounts := if result.Some? then AddEntity(s.accounts, result.value) else s.accounts, wip := RemoveEntity(s.wip, id))
    case _ => s
  }

  function Reduce(state: State, a: Action): State {
    if Throws(state, a) then state
    else
      match a
      case CopyAccount(group, id) =>
        var account := SelectAccountById(state.byGroupId[group], id);
        if account.None? then state
        else
          var s := state.byGroupId[group];
          var copy := account.value.(id := state.nextLocalAccountId, isWip := true, name := account.value.name + " - Copy");
          Put(state, group, s.(wip := AddEntity(s.wip, copy))).(nextLocalAccountId := state.nextLocalAccountId - 1)
      case CreateAccountStarted => state.(nextLocalAccountId := state.nextLocalAccountId - 1)
      case FetchAccountsPending(group) => if group in state.byGroupId then state else Put(state, group, InitialGroup())
      case FetchAccountsFulfilled(group, fetched) =>
        var s := if group in state.byGroupId then state.byGroupId[group] else InitialGroup();
        Put(state, group, s.(accounts := Table(Fetched(fetched), IdsOf(fetched)), status := Initialized))
      case LeaveGroupFulfilled(group) => state.(byGroupId := state.byGroupId - {group})
      case AccountsUpdated => state
      case _ => Put(state, GroupOf(a).value, ReduceGroup(state.byGroupId[GroupOf(a).value], a))
  }

  // ---------- invariants ----------

  ghost predicate Has(ids: seq<Id>, id: Id) {
    exists i :: 0 <= i < |ids| && ids[i] == id
  }

  /** The keys of byId are the elements of ids, and every account stands under its own id. */
  ghost predicate Matches(t: Table) {
    && (forall i :: 0 <= i < |t.ids| ==> t.ids[i] in t.byId)
    && (forall id :: id in t.byId ==> Has(t.ids, id))
    && (forall id :: id in t.byId ==> t.byId[id].id == id)
  }

  ghost predicate DuplicateFree(ids: seq<Id>) {
    forall i, j :: 0 <= i < j < |ids| ==> ids[i] != ids[j]
  }

  ghost predicate Consistent(state: State) {
    forall g :: g in state.byGroupId ==> Matches(state.byGroupId[g].accounts) && Matches(state.byGroupId[g].wip)
  }

  ghost predicate NoDuplicates(state: State) {
    forall g :: g in state.byGroupId ==>
                  DuplicateFree(state.byGroupId[g].accounts.ids) && DuplicateFree(state.byGroupId[g].wip.ids)
  }

  lemma HasPush(ids: seq<Id>, last: Id, x: Id)
    ensures Has(ids + [last], x) <==> Has(ids, x) || x == last
  {
    if Has(ids, x) {
      var i :| 0 <= i < |ids| && ids[i] == x;
      assert (ids + [last])[i] == x;
    }
    assert (ids + [last])[|ids|] == last;
  }

  lemma HasPushAll(ids: seq<Id>, last: Id)
    ensures forall x :: Has(ids + [last], x) <==> Has(ids, x) || x == last
  {
    forall x ensures Has(ids + [last], x) <==> Has(ids, x) || x == last {
      HasPush(ids, last, x);
    }
  }

  lemma {:induction false} WithoutMembers(ids: seq<Id>, id: Id)
    ensures forall x :: Has(Without(ids, id), x) <==> Has(ids, x) && x != id
    ensures DuplicateFree(ids) ==> DuplicateFree(Without(ids, id))
  {
    if ids != [] {
      var init, last := ids[..|ids| - 1], ids[|ids| - 1];
      WithoutMembers(init, id);
      assert ids == init + [last];
      HasPushAll(init, last);
      HasPushAll(Without(init, id), last);
      if DuplicateFree(ids) {
        PushDistinct(ids, Without(init, id));
      }
      assert Without(init, id) + [] == Without(init, id);
    }
  }

  /** The other ids stay, as often as before ... */
  lemma {:induction false} WithoutCount(ids: seq<Id>, id: Id, x: Id)
    ensures multiset(Without(ids, id))[x] == if x == id then 0 else multiset(ids)[x]
  {
    if ids != [] {
      WithoutCount(ids[..|ids| - 1], id, x);
      assert ids == ids[..|ids| - 1] + [ids[|ids| - 1]];
    }
  }

  /** ... and in their order. */
  lemma {:induction false} WithoutInOrder(ids: seq<Id>, id: Id)
    ensures Subsequence(Without(ids, id), ids)
  {
    hide Subsequence;
    if ids == [] {
      NothingIsSubsequence<Id>([]);
    } else {
      var init, last := ids[..|ids| - 1], ids[|ids| - 1];
      WithoutInOrder(init, id);
      SubsequencePush(Without(init, id), init, last);
      assert ids == init + [last] && Without(init, id) + [] == Without(init, id);
    }
  }

  /** The last of distinct ids may be pushed to distinct earlier ones. */
  lemma PushDistinct(ids: seq<Id>, part: seq<Id>)
    requires ids != [] && DuplicateFree(ids)
    requires forall x :: Has(part, x) ==> Has(ids[..|ids| - 1], x)
    ensures DuplicateFree(ids[..|ids| - 1])
    ensures DuplicateFree(part) ==> DuplicateFree(part + [ids[|ids| - 1]])
  {
    forall i | 0 <= i < |part| ensures part[i] != ids[|ids| - 1] {
      assert Has(part, part[i]);
    }
  }

  lemma {:induction false} NotEditedMembers(ids: seq<Id>, wip: map<Id, Account>)
    ensures forall x :: Has(NotEdited(ids, wip), x) <==> Has(ids, x) && x !in wip
    ensures DuplicateFree(ids) ==> DuplicateFree(NotEdited(ids, wip))
  {
    if ids != [] {
      var init, last := ids[..|ids| - 1], ids[|ids| - 1];
      NotEditedMembers(init, wip);
      assert ids == init + [last];
      HasPushAll(init, last);
      HasPushAll(NotEdited(init, wip), last);
      if DuplicateFree(ids) {
        PushDistinct(ids, NotEdited(init, wip));
      }
      assert NotEdited(init, wip) + [] == NotEdited(init, wip);
    }
  }

  lemma {:induction false} FetchedMatches(accounts: seq<Account>)
    ensures Matches(Table(Fetched(accounts), IdsOf(accounts)))
  {
    if accounts != [] {
      var init := accounts[..|accounts| - 1];
      FetchedMatches(init);
      assert IdsOf(accounts) == IdsOf(init) + [accounts[|accounts| - 1].id];
      HasPushAll(IdsOf(init), accounts[|accounts| - 1].id);
    }
  }

  lemma AddEntityKeeps(t: Table, account: Account)
    requires Matches(t)
    ensures Matches(AddEntity(t, account))
    ensures DuplicateFree(t.ids) ==> DuplicateFree(AddEntity(t, account).ids)
  {
    HasPushAll(t.ids, account.id);
  }

  lemma RemoveEntityKeeps(t: Table, id: Id)
    requires Matches(t)
    ensures Matches(RemoveEntity(t, id)) && id !in RemoveEntity(t, id).byId
    ensures DuplicateFree(t.ids) ==> DuplicateFree(RemoveEntity(t, id).ids)
  {
    WithoutMembers(t.ids, id);
    var ids := Without(t.ids, id);
    forall i | 0 <= i < |ids| ensures ids[i] in t.byId && ids[i] != id {
      assert Has(ids, ids[i]);
    }
  }

  /** The one action that writes an id twice: an update of a committed account not being edited. */
  ghost predicate UpdatesUnedited(state: State, a: Action) {
    && a.WipAccountUpdated? && a.update.group in state.byGroupId
    && a.update.id !in state.byGroupId[a.update.group].wip.byId
    && a.update.id in state.byGroupId[a.update.group].accounts.byId
  }

  lemma PushKeeps(t: Table, id: Id, account: Account)
    requires Matches(t) && account.id == id
    ensures Matches(Table(t.byId[id := account], t.ids + [id]))
    ensures Matches(Table(t.byId[id := account], t.ids + [id] + [id]))
    ensures DuplicateFree(t.ids) && id !in t.byId ==> DuplicateFree(t.ids + [id])
  {
    HasPushAll(t.ids, id);
    HasPushAll(t.ids + [id], id);
  }

  lemma ReplaceKeeps(t: Table, account: Account)
    requires Matches(t) && account.id in t.byId
    ensures Matches(t.(byId := t.byId[account.id := account]))
  {
  }

  lemma IdOfEntry(t: Table, id: Id)
    requires Matches(t) && id in t.byId
    ensures t.byId[id].id == id
  {
  }

  lemma {:induction false} UpdateWipKeeps(s: GroupState, u: Update)
    requires Matches(s.accounts) && Matches(s.wip)
    ensures UpdateWip(s, u).Some? ==> UpdateWip(s, u).value.accounts == s.accounts && Matches(UpdateWip(s, u).value.wip)
  {
    hide Matches;
    if u.id in s.wip.byId {
      IdOfEntry(s.wip, u.id);
      ReplaceKeeps(s.wip, Merge(s.wip.byId[u.id], u));
    } else if u.id in s.accounts.byId {
      IdOfEntry(s.accounts, u.id);
      PushKeeps(s.wip, u.id, Merge(ToWip(s.accounts.byId[u.id]), u));
    }
  }

  lemma {:induction false} ReduceGroupKeeps(s: GroupState, a: Action)
    requires Matches(s.accounts) && Matches(s.wip)
    ensures Matches(ReduceGroup(s, a).accounts) && Matches(ReduceGroup(s, a).wip)
    ensures DuplicateFree(s.accounts.ids) ==> DuplicateFree(ReduceGroup(s, a).accounts.ids)
    ensures DuplicateFree(s.wip.ids) && !a.WipAccountUpdated? ==> DuplicateFree(ReduceGroup(s, a).wip.ids)
  {
    hide Matches, DuplicateFree, AddEntity, RemoveEntity, UpdateWip;
    match a
    case AccountAdded(account) => AddEntityKeeps(s.accounts, account);
    case DiscardAccountChange(_, id) => RemoveEntityKeeps(s.wip, id);
    case FetchAccountFulfilled(account) => AddEntityKeeps(s.accounts, account);
    case SaveAccountFulfilled(_, account, oldId) =>
      AddEntityKeeps(s.accounts, account.(isWip := false));
      RemoveEntityKeeps(s.wip, oldId);
    case CreateAccountFulfilled(_, account) => AddEntityKeeps(s.wip, account);
    case DeleteAccountFulfilled(_, id, result) =>
      if result.Some? { AddEntityKeeps(s.accounts, result.value); }
      RemoveEntityKeeps(s.wip, id);
    case WipAccountUpdated(u) => UpdateWipKeeps(s, u);
    case AccountEditStarted(_, id) =>
      if id in s.accounts.byId {
        IdOfEntry(s.accounts, id);
        PushKeeps(s.wip, id, ToWip(s.accounts.byId[id]));
      }
    case _ =>
  }

  lemma UpdateReduces(state: State, u: Update)
    requires !Throws(state, WipAccountUpdated(u))
    ensures Reduce(state, WipAccountUpdated(u)).byGroupId[u.group] == UpdateWip(state.byGroupId[u.group], u).value
    ensures UpdatesUnedited(state, WipAccountUpdated(u)) <==> u.id !in state.byGroupId[u.group].wip.byId
  {
  }

  lemma UpdateWipDuplicates(s: GroupState, u: Update)
    requires Matches(s.wip) && DuplicateFree(s.wip.ids)
    ensures UpdateWip(s, u).Some? ==> (DuplicateFree(UpdateWip(s, u).value.wip.ids) <==> u.id in s.wip.byId)
  {
    if u.id !in s.wip.byId && u.id in s.accounts.byId {
      var ids := UpdateWip(s, u).value.wip.ids;
      assert ids[|s.wip.ids|] == ids[|s.wip.ids| + 1] == u.id;
    }
  }

  lemma EmptyTableKeeps()
    ensures Matches(EMPTY_TABLE) && DuplicateFree(EMPTY_TABLE.ids)
  {
  }

  /** Every action keeps the tables consistent. */
  lemma {:induction false} ReduceKeepsConsistency(state: State, a: Action)
    requires Consistent(state)
    ensures Consistent(Reduce(state, a))
  {
    hide Matches, AddEntity, ReduceGroup, UpdateWip, Fetched, SelectAccountById;
    EmptyTableKeeps();
    if !Throws(state, a) {
      match a
      case CopyAccount(group, id) =>
        var account := SelectAccountById(state.byGroupId[group], id);
        if account.Some? {
          AddEntityKeeps(state.byGroupId[group].wip, account.value.(id := state.nextLocalAccountId, isWip := true,
                                                                    name := account.value.name + " - Copy"));
        }
      case FetchAccountsFulfilled(group, fetched) => FetchedMatches(fetched);
      case CreateAccountStarted =>
      case FetchAccountsPending(group) =>
      case LeaveGroupFulfilled(group) =>
      case AccountsUpdated =>
      case _ => ReduceGroupKeeps(state.byGroupId[GroupOf(a).value], a);
    }
  }

  /** Given duplicate-free ids, the next state has duplicates exactly when the action updates a
      committed account that is not being edited, or brings a fetched list with duplicates. */
  lemma {:induction false} DuplicatesExactlyWhen(state: State, a: Action)
    requires Consistent(state) && NoDuplicates(state)
    ensures NoDuplicates(Reduce(state, a)) <==>
            !UpdatesUnedited(state, a) && (a.FetchAccountsFulfilled? ==> DuplicateFree(IdsOf(a.fetched)))
  {
    hide Matches, DuplicateFree, AddEntity, ReduceGroup, Fetched, IdsOf, SelectAccountById;
    EmptyTableKeeps();
    if !Throws(state, a) {
      match a
      case CopyAccount(group, id) =>
        var account := SelectAccountById(state.byGroupId[group], id);
        if account.Some? {
          AddEntityKeeps(state.byGroupId[group].wip, account.value.(id := state.nextLocalAccountId, isWip := true,
                                                                    name := account.value.name + " - Copy"));
        }
      case FetchAccountsFulfilled(group, fetched) =>
        assert Reduce(state, a).byGroupId[group].accounts.ids == IdsOf(fetched);
      case CreateAccountStarted =>
      case FetchAccountsPending(group) =>
      case LeaveGroupFulfilled(group) =>
      case AccountsUpdated =>
      case WipAccountUpdated(u) =>
        UpdateWipDuplicates(state.byGroupId[u.group], u);
        ReduceGroupKeeps(state.byGroupId[u.group], a);
        UpdateWipKeeps(state.byGroupId[u.group], u);
        UpdateReduces(state, u);
      case _ => ReduceGroupKeeps(state.byGroupId[GroupOf(a).value], a);
    }
  }

  // ---------- the list view ----------

  lemma {:induction false} VisibleMembers(accounts: seq<Account>)
    ensures forall x :: x in Visible(accounts) <==> x in accounts && !x.deleted
    decreases |accounts|
  {
    if accounts != [] {
      VisibleMembers(accounts[..|accounts| - 1]);
      assert accounts == accounts[..|accounts| - 1] + [accounts[|accounts| - 1]];
    }
  }

  lemma {:induction false} VisibleKeepsDistinct(accounts: seq<Account>)
    requires DuplicateFree(IdsOf(accounts))
    ensures DuplicateFree(IdsOf(Visible(accounts)))
    decreases |accounts|
  {
    if accounts != [] {
      var init, last := accounts[..|accounts| - 1], accounts[|accounts| - 1];
      assert IdsOf(init) == IdsOf(accounts)[..|init|];
      VisibleKeepsDistinct(init);
      VisibleMembers(init);
      var ids := IdsOf(Visible(init));
      forall i | 0 <= i < |ids| ensures ids[i] != last.id {
        assert Visible(init)[i] in Visible(init);
        var j :| 0 <= j < |init| && init[j] == Visible(init)[i];
        assert IdsOf(accounts)[j] == ids[i] && IdsOf(accounts)[|init|] == last.id;
      }
      assert IdsOf(Visible(init) + [last]) == ids + [last.id];
      assert Visible(init) + [] == Visible(init);
    }
  }

  lemma {:induction false} LookupMembers(t: Table, ids: seq<Id>)
    requires Matches(t) && Listed(t, ids)
    ensures forall x: Account :: x in Lookup(t, ids) <==> Has(ids, x.id) && x.id in t.byId && t.byId[x.id] == x
    ensures IdsOf(Lookup(t, ids)) == ids
  {
    forall x: Account | Has(ids, x.id) && x.id in t.byId && t.byId[x.id] == x ensures x in Lookup(t, ids) {
      var i :| 0 <= i < |ids| && ids[i] == x.id;
      assert Lookup(t, ids)[i] == x;
    }
    forall x: Account | x in Lookup(t, ids) ensures Has(ids, x.id) && x.id in t.byId && t.byId[x.id] == x {
      var i :| 0 <= i < |ids| && Lookup(t, ids)[i] == x;
      assert ids[i] == x.id;
    }
    forall i | 0 <= i < |ids| ensures IdsOf(Lookup(t, ids))[i] == ids[i] {
      assert ids[i] in t.byId;
    }
  }

  lemma {:induction false} ViewMembers(s: GroupState, x: Account)
    requires Matches(s.accounts) && Matches(s.wip)
    ensures x in SelectGroupAccounts(s) <==> !x.deleted && SelectAccountById(s, x.id) == Some(x)
  {
    AllListed(s);
    var rest := NotEdited(s.accounts.ids, s.wip.byId);
    NotEditedMembers(s.accounts.ids, s.wip.byId);
    LookupMembers(s.wip, s.wip.ids);
    LookupMembers(s.accounts, rest);
    VisibleMembers(Lookup(s.wip, s.wip.ids) + Lookup(s.accounts, rest));
    assert Has(rest, x.id) <==> Has(s.accounts.ids, x.id) && x.id !in s.wip.byId;
  }

  lemma {:induction false} ViewDistinct(s: GroupState)
    requires Matches(s.accounts) && Matches(s.wip)
    requires DuplicateFree(s.accounts.ids) && DuplicateFree(s.wip.ids)
    ensures DuplicateFree(IdsOf(SelectGroupAccounts(s)))
  {
    hide NotEdited, Visible;
    AllListed(s);
    var rest := NotEdited(s.accounts.ids, s.wip.byId);
    var edited, committed := Lookup(s.wip, s.wip.ids), Lookup(s.accounts, rest);
    NotEditedMembers(s.accounts.ids, s.wip.byId);
    LookupMembers(s.wip, s.wip.ids);
    LookupMembers(s.accounts, rest);
    assert IdsOf(edited + committed) == IdsOf(edited) + IdsOf(committed);
    assert forall j :: 0 <= j < |rest| ==> Has(rest, rest[j]);
    VisibleKeepsDistinct(edited + committed);
  }

  /** The list view shows exactly the non-deleted accounts that looking up an id resolves to, each
      once if the tables have no duplicate ids. */
  lemma {:induction false} ViewShowsWhatIdsResolveTo(s: GroupState)
    requires Matches(s.accounts) && Matches(s.wip)
    ensures forall x: Account :: x in SelectGroupAccounts(s) <==> !x.deleted && SelectAccountById(s, x.id) == Some(x)
    ensures DuplicateFree(s.accounts.ids) && DuplicateFree(s.wip.ids) ==> DuplicateFree(IdsOf(SelectGroupAccounts(s)))
  {
    forall x: Account ensures x in SelectGroupAccounts(s) <==> !x.deleted && SelectAccountById(s, x.id) == Some(x) {
      ViewMembers(s, x);
    }
    if DuplicateFree(s.accounts.ids) && DuplicateFree(s.wip.ids) {
      ViewDistinct(s);
    }
  }

  lemma {:induction false} VisibleInOrder(accounts: seq<Account>)
    ensures Subsequence(IdsOf(Visible(accounts)), IdsOf(accounts))
  {
    hide Subsequence;
    if accounts == [] {
      NothingIsSubsequence<Id>([]);
      assert IdsOf([]) == [];
    } else {
      var init, last := accounts[..|accounts| - 1], accounts[|accounts| - 1];
      VisibleInOrder(init);
      SubsequencePush(IdsOf(Visible(init)), IdsOf(init), last.id);
      assert IdsOf(accounts) == IdsOf(init) + [last.id];
      assert IdsOf(Visible(init) + [last]) == IdsOf(Visible(init)) + [last.id];
      assert Visible(init) + [] == Visible(init);
    }
  }

  lemma {:induction false} NotEditedInOrder(ids: seq<Id>, wip: map<Id, Account>)
    ensures Subsequence(NotEdited(ids, wip), ids)
  {
    hide Subsequence;
    if ids == [] {
      NothingIsSubsequence<Id>([]);
    } else {
      var init, last := ids[..|ids| - 1], ids[|ids| - 1];
      NotEditedInOrder(init, wip);
      SubsequencePush(NotEdited(init, wip), init, last);
      assert ids == init + [last] && NotEdited(init, wip) + [] == NotEdited(init, wip);
    }
  }

  lemma {:induction false} WholeIsSubsequence(ids: seq<Id>)
    ensures Subsequence(ids, ids)
  {
    if ids != [] {
      WholeIsSubsequence(ids[..|ids| - 1]);
    }
  }

  /** The overlay comes first, and both tables are shown in the order of their ids. */
  lemma {:induction false} ViewShowsOverlayFirst(s: GroupState)
    requires Matches(s.accounts) && Matches(s.wip)
    ensures Subsequence(IdsOf(SelectGroupAccounts(s)), s.wip.ids + s.accounts.ids)
  {
    hide Subsequence, Visible, NotEdited, Matches;
    AllListed(s);
    var rest := NotEdited(s.accounts.ids, s.wip.byId);
    var edited, committed := Lookup(s.wip, s.wip.ids), Lookup(s.accounts, rest);
    LookupMembers(s.wip, s.wip.ids);
    LookupMembers(s.accounts, rest);
    assert IdsOf(edited + committed) == s.wip.ids + rest;
    VisibleInOrder(edited + committed);
    WholeIsSubsequence(s.wip.ids);
    NotEditedInOrder(s.accounts.ids, s.wip.byId);
    SubsequenceConcat(s.wip.ids, s.wip.ids, rest, s.accounts.ids);
    SubsequenceTransitively(IdsOf(SelectGroupAccounts(s)), s.wip.ids + rest, s.wip.ids + s.accounts.ids);
  }

  // ---------- runs ----------

  /** The local id an action hands out, if any. */
  ghost function HandedOut(state: State, a: Action): Option<Id> {
    if a.CreateAccountStarted? || (a.CopyAccount? && !Throws(state, a)
                                   && SelectAccountById(state.byGroupId[a.group], a.id).Some?)
    then Some(state.nextLocalAccountId) else None
  }

  datatype History = History(state: State, handedOut: seq<Id>)

  ghost function Run(actions: seq<Action>): History {
    if actions == [] then History(INITIAL, [])
    else
      var h := Run(actions[..|actions| - 1]);
      var a := actions[|actions| - 1];
      var id := HandedOut(h.state, a);
      History(Reduce(h.state, a), if id.Some? then h.handedOut + [id.value] else h.handedOut)
  }

  /** Over every interleaving the tables stay consistent, and no local id is handed out twice:
      they are negative and count down. */
  lemma {:induction false} EveryInterleaving(actions: seq<Action>)
    ensures Consistent(Run(actions).state)
    ensures forall i :: 0 <= i < |Run(actions).handedOut| ==>
                          Run(actions).state.nextLocalAccountId < Run(actions).handedOut[i] < 0
    ensures DuplicateFree(Run(actions).handedOut)
    ensures Run(actions).state.nextLocalAccountId < 0
  {
    if actions != [] {
      var h, a := Run(actions[..|actions| - 1]), actions[|actions| - 1];
      EveryInterleaving(actions[..|actions| - 1]);
      ReduceKeepsConsistency(h.state, a);
      NextLocalId(h.state, a);
    }
  }

  lemma NextLocalId(state: State, a: Action)
    ensures Reduce(state, a).nextLocalAccountId ==
            if HandedOut(state, a).Some? then state.nextLocalAccountId - 1 else state.nextLocalAccountId
  {
  }

  /** Every update of a committed account comes while it is being edited, and lists are fetched
      without duplicates. */
  ghost predicate EditsStartFirst(actions: seq<Action>) {
    forall i :: 0 <= i < |actions| ==>
                  && !UpdatesUnedited(Run(actions[..i]).state, actions[i])
                  && (actions[i].FetchAccountsFulfilled? ==> DuplicateFree(IdsOf(actions[i].fetched)))
  }

  lemma {:induction false} NoDuplicatesWhenEditsStartFirst(actions: seq<Action>)
    requires EditsStartFirst(actions)
    ensures NoDuplicates(Run(actions).state)
  {
    if actions != [] {
      var n := |actions| - 1;
      assert EditsStartFirst(actions[..n]) by {
        forall i | 0 <= i < n ensures actions[..n][..i] == actions[..i] { }
      }
      NoDuplicatesWhenEditsStartFirst(actions[..n]);
      EveryInterleaving(actions[..n]);
      DuplicatesExactlyWhen(Run(actions[..n]).state, actions[n]);
    }
  }

  /** A run in which the list view shows one account twice: an account is fetched and then updated
      without editing having been started. */
  lemma UpdateWithoutEditDuplicates()
    ensures exists actions, g :: g in Run(actions).state.byGroupId && !DuplicateFree(Run(actions).state.byGroupId[g].wip.ids)
  {
    var fetch := FetchAccountsFulfilled(1, [Account(5, 1, false, false, "a")]);
    var update := WipAccountUpdated(Update(5, 1, None, Some("b")));
    var actions := [fetch, update];
    assert actions[..1] == [fetch] && [fetch][..0] == [];
    assert Run([]) == History(INITIAL, []);
    var s := Run([fetch]).state;
    assert s.byGroupId[1].accounts.byId == Fetched([Account(5, 1, false, false, "a")]);
    assert 5 in s.byGroupId[1].accounts.byId && 5 !in s.byGroupId[1].wip.byId;
    EveryInterleaving([fetch]);
    assert Run(actions).state == Reduce(s, update);
    var ids := Run(actions).state.byGroupId[1].wip.ids;
    assert ids == [5, 5];
    assert ids[0] == ids[1];
  }
}
