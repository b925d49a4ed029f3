/**
 The feature gate of the Role Designator plugin. The current user's role
 set and whether the user counts as an administrator are inputs; the gate
 is a closed, default-deny table over two features.
 */
module Access {
  import opened Roles

  const Journal: string := "journal"
  const Archive: string := "archive"

  /** Whether a user with `roles` (and administrator status `isAdministrator`)
      may use `feature`. Only the two named features can ever be granted,
      administrators get both, and anyone else needs one of the two custom
      roles. */
  function CanAccess(roles: set<RoleId>, isAdministrator: bool, feature: string): (r: bool)
    ensures r ==> feature == Journal || feature == Archive
    ensures isAdministrator && (feature == Journal || feature == Archive) ==> r
    ensures r && !isAdministrator ==> MenOfFireId in roles || Ignite30Id in roles
    ensures MenOfFireId in roles && (feature == Journal || feature == Archive) ==> r
  {
    match feature
    case "journal" => MenOfFireId in roles || Ignite30Id in roles || isAdministrator
    case "archive" => MenOfFireId in roles || isAdministrator
    case _ => false
  }

  /** The journal row of the table, in both directions. */
  lemma JournalDecision(roles: set<RoleId>, isAdministrator: bool)
    ensures CanAccess(roles, isAdministrator, Journal)
        <==> MenOfFireId in roles || Ignite30Id in roles || isAdministrator
  {
  }

  /** The archive row of the table, in both directions: `ignite30` alone
      does not open the archive. */
  lemma ArchiveDecision(roles: set<RoleId>, isAdministrator: bool)
    ensures CanAccess(roles, isAdministrator, Archive) <==> MenOfFireId in roles || isAdministrator
    ensures !CanAccess({Ignite30Id}, false, Archive)
  {
  }

  /** Every other feature name is denied, whoever asks. */
  lemma OtherFeaturesDenied(roles: set<RoleId>, isAdministrator: bool, feature: string)
    requires feature != Journal && feature != Archive
    ensures !CanAccess(roles, isAdministrator, feature)
  {
  }

  /** Archive access is the stricter of the two. */
  lemma ArchiveImpliesJournal(roles: set<RoleId>, isAdministrator: bool)
    ensures CanAccess(roles, isAdministrator, Archive) ==> CanAccess(roles, isAdministrator, Journal)
  {
  }

  /** Gaining roles or administrator status never takes access away. */
  lemma AccessIsMonotone(roles: set<RoleId>, more: set<RoleId>, isAdministrator: bool, feature: string)
    requires roles <= more
    ensures CanAccess(roles, isAdministrator, feature) ==> CanAccess(more, isAdministrator, feature)
    ensures CanAccess(roles, false, feature) ==> CanAccess(roles, true, feature)
  {
  }

  /** Role `id` is defined in `table` and sets capability `cap` to true. */
  predicate Grants(table: map<RoleId, Role>, id: RoleId, cap: string) {
    id in table && cap in table[id].capabilities && table[id].capabilities[cap]
  }

  /** The reference decision derived from the role table instead of a
      hard-coded list: feature `f` is granted by capability `view_f` of
      some role the user holds, or by administrator status. */
  predicate GrantedByCapabilities(table: map<RoleId, Role>, roles: set<RoleId>,
                                  isAdministrator: bool, feature: string)
  {
    && (feature == Journal || feature == Archive)
    && (isAdministrator || exists id :: id in roles && Grants(table, id, "view_" + feature))
  }

  /** No role of the user other than the two custom ones grants a view
      capability. */
  predicate NoOtherViewGrants(table: map<RoleId, Role>, roles: set<RoleId>) {
    forall id :: id in roles && id != MenOfFireId && id != Ignite30Id ==>
      !Grants(table, id, ViewJournal) && !Grants(table, id, ViewArchive)
  }

  /** While the two roles carry their literal definitions and no other role
      grants a view capability, the hard-coded table and the capability
      flags give the same answer for every user and every feature. */
  lemma CanAccessMatchesCapabilities(table: map<RoleId, Role>, roles: set<RoleId>,
                                     isAdministrator: bool, feature: string)
    requires HasLiteralDefinitions(table)
    requires NoOtherViewGrants(table, roles)
    ensures CanAccess(roles, isAdministrator, feature)
        == GrantedByCapabilities(table, roles, isAdministrator, feature)
  {
    assert "view_" + Journal == ViewJournal;
    assert "view_" + Archive == ViewArchive;
    if feature == Journal || feature == Archive {
      var cap := "view_" + feature;
      if MenOfFireId in roles {
        assert Grants(table, MenOfFireId, cap);
      } else if Ignite30Id in roles && feature == Journal {
        assert Grants(table, Ignite30Id, cap);
      } else {
        forall id | id in roles
          ensures !Grants(table, id, cap)
        {
          if id == Ignite30Id {
            assert feature == Archive;
            assert table[Ignite30Id].capabilities[ViewArchive] == false;
          }
        }
      }
    }
  }

  /** After a drifted `menoffire` role (one without `view_archive`) survives
      initialisation, the two decisions disagree: the hard-coded table still
      opens the archive to its members. */
  lemma DriftedRoleDisagrees(table: map<RoleId, Role>)
    requires MenOfFireId in table
    requires table[MenOfFireId].capabilities == MenOfFireRole().capabilities[ViewArchive := false]
    ensures CanAccess({MenOfFireId}, false, Archive)
    ensures !GrantedByCapabilities(InitializedRoles(table), {MenOfFireId}, false, Archive)
  {
    var init := InitializedRoles(table);
    assert "view_" + Archive == ViewArchive;
    assert init[MenOfFireId] == table[MenOfFireId];
    assert !Grants(init, MenOfFireId, ViewArchive);
  }
}
