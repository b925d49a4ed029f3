# Role Designator — a Dafny model

Role Designator is a WordPress plugin that defines two custom roles,
`menoffire` ("Men of Fire") and `ignite30` ("Ignite 30"). Each role has a
fixed capability map. The plugin adds two bulk actions to the user list that
move the selected users into one of those roles. It also offers a feature
gate that decides whether the current user may see the `journal` or the
`archive`.

This project models the plugin's logic, with the WordPress state replaced by
abstract state:

- `roles.dfy`, module `Roles`: the host's role table is the class
  `RoleRegistry`. It holds a `map` from role id to `Role(displayName,
  capabilities)`. The methods `CreateMenOfFireRole` and `CreateIgnite30Role`
  remove and then re-add a role, which amounts to overwriting it with its
  literal definition. `InitializeRoles` creates a role only when it is
  missing. The function `InitializedRoles` states the resulting table, and
  the lemmas about it prove idempotence and show that an existing role is
  never changed.
- `access.dfy`, module `Access`: `CanAccess(roles, isAdministrator,
  feature)` is the closed, default-deny decision table. The user's role set
  and `current_user_can('administrator')` are parameters. The lemmas state
  each row in both directions. They also relate the table to a reference
  decision, `GrantedByCapabilities`. It admits administrators outright and
  otherwise reads the `view_journal` and `view_archive` flags of the roles the
  user holds. The two agree while the literal definitions are installed and
  no other held role grants a view flag (`NoOtherViewGrants`). They can
  disagree after a role drifts.
- `bulk.dfy`, module `BulkActions`: the host's user store is the class
  `UserStore`. It holds a `map` from user id to role set. `AddBulkActions`
  adds the two action entries. `HandleBulkActions` filters on the action
  name, derives the target role with `StripAll` (the model of
  `str_replace('set_', '', …)`), and walks the ids in order. Its loop
  invariant ties the store and the counter to `Reassigned` and `CountFound`
  on the prefix processed so far.

## Model

| member | source | states |
|---|---|---|
| `Roles.MenOfFireRole` | roles-assign.php:49-62 | the `menoffire` definition lists exactly the eight capabilities and grants exactly `read`, `view_journal`, `view_archive` and `level_0` |
| `Roles.Ignite30Role` | roles-assign.php:67-80 | the `ignite30` capabilities are those of `menoffire` with `view_archive` false, under a different display name |
| `Roles.RoleRegistry.HasRole` | roles-assign.php:85-86 | a role lookup finds a role exactly when its id is a key of the table |
| `Roles.RoleRegistry.RemoveRole` | roles-assign.php:48 | removing a role deletes exactly that id from the table, and removing an absent id is a no-op |
| `Roles.RoleRegistry.AddRole` | roles-assign.php:49-62 | adding a role installs the given definition when the id is free and changes nothing when the id is taken |
| `Roles.CreateMenOfFireRole` | roles-assign.php:47-63 | remove-then-add leaves `menoffire` with exactly the literal definition, whatever it held before, and changes no other role |
| `Roles.CreateIgnite30Role` | roles-assign.php:65-81 | remove-then-add leaves `ignite30` with exactly the literal definition (`view_archive` false) and changes no other role |
| `Roles.InitializedRoles` | roles-assign.php:83-95 | after initialisation both roles exist, every role that existed keeps its definition, a newly created role gets its literal definition, and no other id is added |
| `Roles.InitializeRoles` | roles-assign.php:83-95 | the registry after the call is `InitializedRoles` of the registry before it (the body does both lookups before creating anything) |
| `Roles.InitializeIsIdempotent` | roles-assign.php:83-95 | initialising twice gives the same table as initialising once |
| `Roles.InitializeFromEmptyInstallsLiterals` | roles-assign.php:47-95 | from a table without either role, initialisation installs both literal definitions, and `ignite30` has `view_archive` false |
| `Roles.InitializeKeepsDriftedRole` | roles-assign.php:83-95 | an existing `menoffire` whose definition differs from the literal is not repaired by initialisation |
| `Access.CanAccess` | roles-assign.php:182-198 | only `journal` and `archive` can be granted; administrators get both; a non-administrator needs `menoffire` or `ignite30`; `menoffire` opens both |
| `Access.JournalDecision` | roles-assign.php:186-189 | `journal` is granted exactly when the roles contain `menoffire` or `ignite30` or the user is an administrator |
| `Access.ArchiveDecision` | roles-assign.php:191-193 | `archive` is granted exactly when the roles contain `menoffire` or the user is an administrator, so `{ignite30}` alone is denied |
| `Access.OtherFeaturesDenied` | roles-assign.php:195-196 | any other feature name is denied for every role set and administrator status |
| `Access.ArchiveImpliesJournal` | roles-assign.php:186-193 | whoever may see the archive may see the journal |
| `Access.AccessIsMonotone` | roles-assign.php:186-193 | more roles, or administrator status, never removes access |
| `Access.CanAccessMatchesCapabilities` | roles-assign.php:182-198 | with the literal role definitions of lines 58-59 and 76-77 installed and no other held role granting a view capability, the hard-coded table equals the decision read from the `view_<feature>` flags of the held roles, with administrators admitted outright, for every feature |
| `Access.DriftedRoleDisagrees` | roles-assign.php:191-193 | if `menoffire` lost `view_archive` before initialisation, the hard-coded table still opens the archive while the capability flags deny it |
| `BulkActions.AddBulkActions` | roles-assign.php:146-150 | the result has exactly the input keys plus `set_menoffire` and `set_ignite30`, with their labels, and every other entry is kept |
| `BulkActions.AddBulkActionsIsIdempotent` | roles-assign.php:146-150 | adding the bulk actions twice is the same as adding them once |
| `BulkActions.StripAll` | roles-assign.php:157 | removing every occurrence of the needle never lengthens the string and leaves a string without the needle's first character unchanged |
| `BulkActions.TargetRole` | roles-assign.php:157 | the action name with `set_` removed: `set_menoffire` targets `menoffire`, `set_ignite30` targets `ignite30`, and the result is never longer than the action |
| `BulkActions.IsRoleAction` | roles-assign.php:153 | the handler acts only on `set_menoffire` and `set_ignite30`, compared strictly |
| `BulkActions.AddedActionsAreHandled` | roles-assign.php:146-157 | each action the plugin adds is accepted by the handler, and its target role exists once the registry is initialised |
| `BulkActions.UserStore.HasUser` | roles-assign.php:161 | a user lookup by id finds a user exactly when the id is a key of the store |
| `BulkActions.UserStore.SetRole` | roles-assign.php:163 | setting a user's role replaces the whole role set with exactly that role and touches no other user |
| `BulkActions.Reassigned` | roles-assign.php:160-166 | no user is added or removed; every listed user the store holds gets exactly `{role}`, replacing its old roles; every unlisted user keeps its roles |
| `BulkActions.ReassignedStep` | roles-assign.php:160-166 | processing one more id reassigns that user if found and nobody else |
| `BulkActions.ReassignedIgnoresOrder` | roles-assign.php:160-166 | the final store depends only on which ids are listed, not on their order or repetition, and repeating the action changes nothing |
| `BulkActions.CountFound` | roles-assign.php:158-165 | the number of list entries found in the store, repeats counted, at most the list length and so 0 for an empty list |
| `BulkActions.CountFoundAppend` | roles-assign.php:160-165 | one more id adds one to the count exactly when that id is found |
| `BulkActions.CountFoundBound` | roles-assign.php:158-168 | the count is at most the number of ids, and equals it exactly when every id is found |
| `BulkActions.CountFoundDistinct` | roles-assign.php:158-168 | without repeated ids, the count is the number of distinct listed users in the store |
| `BulkActions.HandleBulkActions` | roles-assign.php:152-169 | any other action returns the redirect unchanged and changes no user; a role action returns the redirect with `bulk_role_updated` set to the count of found entries (duplicates counted twice, 0 for an empty list), and the store becomes `Reassigned` with the target role |
| `BulkActions.ReassignedUserAccess` | roles-assign.php:157-166 | after reassignment a found user can see the journal, and can see the archive exactly when the action was `set_menoffire`, if administrator status came from the `administrator` role alone |
| `BulkActions.ThreeIdsOneMissing` | roles-assign.php:152-169 | for three ids with the middle one missing and the action `set_ignite30`, the count is 2, the first and third users hold exactly `{ignite30}`, and the missing id is not added |

## Left out

- The constructor's hook registration, `activate`, `deactivate` and `flush_rewrite_rules` (roles-assign.php:14-45) are host lifecycle wiring. `add_admin_menu` (97-107) is too.
- `render_admin_page` (109-144) is left out. It produces HTML through escaping, nonce URLs and a user query.
- `bulk_action_admin_notice` (171-179) is left out. It reads the request, converts with `intval` and prints.
- `rd_can_access` (205-207) only forwards to `can_access`.
- `wp_get_current_user()->roles` and `current_user_can('administrator')` are the parameters `roles` and `isAdministrator` of `Access.CanAccess`. How WordPress derives administrator status, including the super-admin case, is not modelled.
- `Access.CanAccess`: the feature is a string. PHP's `switch` compares loosely, so a non-string feature such as `true` could match `'journal'`. That case is not modelled.
- `get_role`, `remove_role` and `add_role` are reads and writes of the `RoleRegistry` map. WordPress's persistence of the table and its refusal of an empty role id are not modelled.
- `get_user_by('id', …)` is membership in the `UserStore` map. WordPress's conversion of non-numeric or non-positive ids is not modelled, so a missing id is any id not in the map.
- `BulkActions.UserStore.SetRole` always leaves exactly `{role}`. WordPress would leave an empty role set for an empty role name. The handler only passes `menoffire` or `ignite30`.
- `add_query_arg` is the datatype value `WithQueryArg(key, value, url)`. URL building and encoding are not modelled.
- `BulkActions.AddBulkActions`: the result is a `map`, so the order of entries in PHP's ordered array (new keys go last) is not modelled.
- The display names are modelled only as data in `Role` and in the bulk-action labels.

## Notes

- The comment in `initialize_roles` (roles-assign.php:84) says the step makes sure the roles "have correct capabilities". The code only checks that each role exists. The model follows the code. `Roles.InitializeKeepsDriftedRole` and `Access.DriftedRoleDisagrees` show what that means when a stored definition has drifted from the literal one.
