/**
 The two bulk actions the plugin adds to the user list, and the handler
 that reassigns the selected users. The host's user store is abstracted as
 a map from user id to the user's role set, held by a `UserStore` object;
 the redirect URL the handler returns is kept as an uninterpreted string
 with the query argument it would carry.
 */
module BulkActions {
  import opened Roles
  import opened Access

  type UserId = int

  const SetMenOfFire: string := "set_menoffire"
  const SetIgnite30: string := "set_ignite30"
  const ActionPrefix: string := "set_"
  const BulkRoleUpdated: string := "bulk_role_updated"

  /** The handler's result: the redirect left as it was, or the redirect
      with one query argument added. */
  datatype Redirect =
    | Plain(url: string)
    | WithQueryArg(key: string, value: nat, url: string)

  /** The host's user store, reduced to each user's role set. */
  class UserStore {
    var users: map<UserId, set<RoleId>>

    constructor (initial: map<UserId, set<RoleId>>)
      ensures users == initial
    {
      users := initial;
    }

    /** Whether a lookup by id finds a user. */
    predicate HasUser(id: UserId)
      reads this
    {
      id in users
    }

    /** The user's roles are replaced by exactly `role`. */
    method SetRole(id: UserId, role: RoleId)
      requires id in users
      modifies this
      ensures users == old(users)[id := {role}]
    {
      users := users[id := {role}];
    }
  }

  /** The list of bulk actions with the plugin's two entries set; entries
      already present under other keys are kept. */
  function AddBulkActions(bulkActions: map<string, string>): (r: map<string, string>)
    ensures r.Keys == bulkActions.Keys + {SetMenOfFire, SetIgnite30}
    ensures r[SetMenOfFire] == "Set as Men of Fire" && r[SetIgnite30] == "Set as Ignite 30"
    ensures forall k :: k in bulkActions && k != SetMenOfFire && k != SetIgnite30 ==> r[k] == bulkActions[k]
  {
    bulkActions[SetMenOfFire := "Set as Men of Fire"][SetIgnite30 := "Set as Ignite 30"]
  }

  /** Adding the bulk actions a second time changes nothing. */
  lemma AddBulkActionsIsIdempotent(bulkActions: map<string, string>)
    ensures AddBulkActions(AddBulkActions(bulkActions)) == AddBulkActions(bulkActions)
  {
  }

  /** The actions the handler acts on; any other action passes through. */
  predicate IsRoleAction(action: string) {
    action == SetMenOfFire || action == SetIgnite30
  }

  /** `s` with every occurrence of `needle` removed, scanning left to right
      without overlaps. */
  function StripAll(needle: string, s: string): (r: string)
    requires needle != []
    ensures |r| <= |s|
    ensures needle[0] !in s ==> r == s
    decreases |s|
  {
    if |s| < |needle| then s
    else if s[..|needle|] == needle then StripAll(needle, s[|needle|..])
    else [s[0]] + StripAll(needle, s[1..])
  }

  /** The role an action assigns: the action name without `set_`. Each
      bulk action targets its own role, one of the two the registry
      initialises. */
  function TargetRole(action: string): (r: RoleId)
    ensures action == SetMenOfFire ==> r == MenOfFireId
    ensures action == SetIgnite30 ==> r == Ignite30Id
    ensures |r| <= |action|
  {
    assert SetMenOfFire[..|ActionPrefix|] == ActionPrefix;
    assert SetMenOfFire[|ActionPrefix|..] == MenOfFireId && 's' !in MenOfFireId;
    assert SetIgnite30[..|ActionPrefix|] == ActionPrefix;
    assert SetIgnite30[|ActionPrefix|..] == Ignite30Id && 's' !in Ignite30Id;
    StripAll(ActionPrefix, action)
  }

  /** Every action the plugin adds is one the handler acts on, and its
      target role exists once the registry is initialised. */
  lemma AddedActionsAreHandled(bulkActions: map<string, string>, table: map<RoleId, Role>, action: string)
    requires action in AddBulkActions(bulkActions) && action !in bulkActions
    ensures IsRoleAction(action)
    ensures TargetRole(action) in InitializedRoles(table)
  {
  }

  /** The number of entries of `ids` that the store finds, counting each
      occurrence of a repeated id. */
  function CountFound(users: map<UserId, set<RoleId>>, ids: seq<UserId>): (r: nat)
    ensures r <= |ids|
  {
    if ids == [] then 0
    else (if ids[0] in users then 1 else 0) + CountFound(users, ids[1..])
  }

  /** The store after every found id in `ids` has been given exactly `role`. */
  function Reassigned(users: map<UserId, set<RoleId>>, ids: seq<UserId>, role: RoleId)
    : (r: map<UserId, set<RoleId>>)
    ensures r.Keys == users.Keys
    ensures forall id :: id in users && id in ids ==> r[id] == {role}
    ensures forall id :: id in users && id !in ids ==> r[id] == users[id]
  {
    map id | id in users :: if id in ids then {role} else users[id]
  }

  /** Counting the list one entry longer adds one exactly when that entry
      is found. */
  lemma {:induction false} CountFoundAppend(users: map<UserId, set<RoleId>>, ids: seq<UserId>, id: UserId)
    ensures CountFound(users, ids + [id]) == CountFound(users, ids) + (if id in users then 1 else 0)
    decreases |ids|
  {
    if ids != [] {
      assert (ids + [id])[1..] == ids[1..] + [id];
      CountFoundAppend(users, ids[1..], id);
    }
  }

  /** The count never exceeds the list length, and reaches it exactly when
      every id in the list is found. */
  lemma {:induction false} CountFoundBound(users: map<UserId, set<RoleId>>, ids: seq<UserId>)
    ensures CountFound(users, ids) <= |ids|
    ensures CountFound(users, ids) == |ids| <==> forall i :: 0 <= i < |ids| ==> ids[i] in users
    decreases |ids|
  {
    if ids != [] {
      CountFoundBound(users, ids[1..]);
      if forall i :: 0 <= i < |ids| ==> ids[i] in users {
        assert forall i :: 0 <= i < |ids[1..]| ==> ids[1..][i] in users by {
          forall i | 0 <= i < |ids[1..]| ensures ids[1..][i] in users {
            assert ids[1..][i] == ids[i + 1];
          }
        }
      } else if ids[0] in users {
        var j :| 0 <= j < |ids| && ids[j] !in users;
        assert ids[1..][j - 1] == ids[j];
      }
    }
  }

  /** Without repeated ids the count is the number of distinct listed
      users the store holds. */
  lemma {:induction false} CountFoundDistinct(users: map<UserId, set<RoleId>>, ids: seq<UserId>)
    requires forall i, j :: 0 <= i < j < |ids| ==> ids[i] != ids[j]
    ensures CountFound(users, ids) == |set id | id in ids && id in users|
    decreases |ids|
  {
    if ids != [] {
      var rest := ids[1..];
      CountFoundDistinct(users, rest);
      var found := set id | id in ids && id in users;
      var foundRest := set id | id in rest && id in users;
      assert ids[0] !in rest by {
        forall k | 0 <= k < |rest| ensures rest[k] != ids[0] {
          assert rest[k] == ids[k + 1];
        }
      }
      assert ids == [ids[0]] + rest;
      if ids[0] in users {
        assert found == foundRest + {ids[0]};
      } else {
        assert found == foundRest;
      }
    }
  }

  /** Reassignment is a function of the set of listed ids: order and
      repetition do not matter, and repeating it changes nothing. */
  lemma ReassignedIgnoresOrder(users: map<UserId, set<RoleId>>, ids: seq<UserId>, others: seq<UserId>, role: RoleId)
    requires forall id :: id in ids <==> id in others
    ensures Reassigned(users, ids, role) == Reassigned(users, others, role)
    ensures Reassigned(Reassigned(users, ids, role), ids, role) == Reassigned(users, ids, role)
  {
    var a, b := Reassigned(users, ids, role), Reassigned(users, others, role);
    forall id | id in a.Keys ensures a[id] == b[id] {
      if id in ids { assert id in others; } else { assert id !in others; }
    }
  }

  /** Extending the processed prefix by one entry reassigns that one user,
      if found, and no one else. */
  lemma ReassignedStep(users: map<UserId, set<RoleId>>, ids: seq<UserId>, id: UserId, role: RoleId)
    ensures Reassigned(users, ids + [id], role)
         == if id in users then Reassigned(users, ids, role)[id := {role}] else Reassigned(users, ids, role)
  {
  }

  /** The bulk-action handler. An action other than the two role actions
      returns the redirect untouched and leaves every user alone. A role
      action walks the ids in order, gives each found user exactly the
      target role, skips missing ids, and returns the redirect carrying the
      number of found entries. */
  method HandleBulkActions(store: UserStore, redirectTo: string, action: string, userIds: seq<UserId>)
    returns (result: Redirect)
    modifies store
    ensures !IsRoleAction(action) ==> result == Plain(redirectTo) && store.users == old(store.users)
    ensures IsRoleAction(action) ==>
      result == WithQueryArg(BulkRoleUpdated, CountFound(old(store.users), userIds), redirectTo)
    ensures IsRoleAction(action) ==>
      store.users == Reassigned(old(store.users), userIds, TargetRole(action))
  {
    if !IsRoleAction(action) {
      return Plain(redirectTo);
    }
    var role := TargetRole(action);
    var updated: nat := 0;
    for i := 0 to |userIds|
      invariant store.users == Reassigned(old(store.users), userIds[..i], role)
      invariant updated == CountFound(old(store.users), userIds[..i])
    {
      var id := userIds[i];
      assert userIds[..i + 1] == userIds[..i] + [id];
      ReassignedStep(old(store.users), userIds[..i], id, role);
      CountFoundAppend(old(store.users), userIds[..i], id);
      var found := store.HasUser(id);
      if found {
        store.SetRole(id, role);
        updated := updated + 1;
      }
    }
    assert userIds[..|userIds|] == userIds;
    result := WithQueryArg(BulkRoleUpdated, updated, redirectTo);
  }

  /** What a reassigned user may see afterwards, when administrator status
      comes from the `administrator` role alone: the journal always, the
      archive only after `set_menoffire`. Reassignment drops that role. */
  lemma ReassignedUserAccess(users: map<UserId, set<RoleId>>, ids: seq<UserId>, action: string, id: UserId)
    requires IsRoleAction(action) && id in users && id in ids
    ensures var roles := Reassigned(users, ids, TargetRole(action))[id];
      && CanAccess(roles, "administrator" in roles, Journal)
      && (CanAccess(roles, "administrator" in roles, Archive) <==> action == SetMenOfFire)
  {
  }

  /** Three ids, the middle one missing, reassigned to `ignite30`: two
      users are updated and the missing id is not added. */
  lemma ThreeIdsOneMissing(users: map<UserId, set<RoleId>>, u1: UserId, u2: UserId, u3: UserId)
    requires u1 in users && u2 !in users && u3 in users
    ensures CountFound(users, [u1, u2, u3]) == 2
    ensures Reassigned(users, [u1, u2, u3], TargetRole(SetIgnite30))[u1] == {Ignite30Id}
    ensures Reassigned(users, [u1, u2, u3], TargetRole(SetIgnite30))[u3] == {Ignite30Id}
    ensures u2 !in Reassigned(users, [u1, u2, u3], TargetRole(SetIgnite30))
  {
    var ids := [u1, u2, u3];
    assert ids[1..] == [u2, u3];
    assert [u2, u3][1..] == [u3];
    assert [u3][1..] == [];
    assert CountFound(users, [u3]) == 1;
    assert CountFound(users, [u2, u3]) == 1;
  }
}
