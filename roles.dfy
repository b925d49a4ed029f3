/**
 The role registry of the Role Designator plugin: the two custom roles,
 their fixed capability maps, and the start-up step that makes sure both
 roles exist. The host platform's role table is abstracted as a map from
 role id to role definition held by a `RoleRegistry` object.
 */
module Roles {

  type RoleId = string

  /** A capability map: capability name to granted flag. */
  type Capabilities = map<string, bool>

  /** A role definition as the host stores it. */
  datatype Role = Role(displayName: string, capabilities: Capabilities)

  const MenOfFireId: RoleId := "menoffire"
  const Ignite30Id: RoleId := "ignite30"

  const ViewJournal: string := "view_journal"
  const ViewArchive: string := "view_archive"

  /** The literal definition installed for `menoffire`: of the eight
      capabilities it lists, it grants reading, both views and level 0, and
      denies editing, deleting, publishing and uploading. */
  function MenOfFireRole(): (r: Role)
    ensures r.capabilities.Keys == {"read", "edit_posts", "delete_posts", "publish_posts",
                                    "upload_files", ViewJournal, ViewArchive, "level_0"}
    ensures forall cap :: cap in r.capabilities ==>
      (r.capabilities[cap] <==> cap in {"read", ViewJournal, ViewArchive, "level_0"})
  {
    Role("Men of Fire",
         map["read" := true, "edit_posts" := false, "delete_posts" := false,
             "publish_posts" := false, "upload_files" := false,
             ViewJournal := true, ViewArchive := true, "level_0" := true])
  }

  /** The literal definition installed for `ignite30`; it differs from
      `menoffire` only in its display name and in `view_archive`. */
  function Ignite30Role(): (r: Role)
    ensures r.capabilities == MenOfFireRole().capabilities[ViewArchive := false]
    ensures r.displayName != MenOfFireRole().displayName
  {
    Role("Ignite 30",
         map["read" := true, "edit_posts" := false, "delete_posts" := false,
             "publish_posts" := false, "upload_files" := false,
             ViewJournal := true, ViewArchive := false, "level_0" := true])
  }

  /** The host's role table. Only the operations the plugin uses are modelled:
      looking a role up, removing it, and adding it when absent. */
  class RoleRegistry {
    var roles: map<RoleId, Role>

    constructor (initial: map<RoleId, Role>)
      ensures roles == initial
    {
      roles := initial;
    }

    /** Whether a lookup of `id` finds a role (a non-null result). */
    predicate HasRole(id: RoleId)
      reads this
    {
      id in roles
    }

    /** Removing a role that is absent changes nothing. */
    method RemoveRole(id: RoleId)
      modifies this
      ensures roles == old(roles) - {id}
    {
      roles := roles - {id};
    }

    /** Adding a role whose id is already taken changes nothing. */
    method AddRole(id: RoleId, displayName: string, capabilities: Capabilities)
      modifies this
      ensures id in old(roles) ==> roles == old(roles)
      ensures id !in old(roles) ==> roles == old(roles)[id := Role(displayName, capabilities)]
    {
      if id !in roles {
        roles := roles[id := Role(displayName, capabilities)];
      }
    }
  }

  /** Remove-then-add: whatever `menoffire` was before, it now holds the
      literal definition, and no other role changes. */
  method CreateMenOfFireRole(registry: RoleRegistry)
    modifies registry
    ensures registry.roles == old(registry.roles)[MenOfFireId := MenOfFireRole()]
  {
    registry.RemoveRole(MenOfFireId);
    var def := MenOfFireRole();
    registry.AddRole(MenOfFireId, def.displayName, def.capabilities);
  }

  /** Remove-then-add for `ignite30`. */
  method CreateIgnite30Role(registry: RoleRegistry)
    modifies registry
    ensures registry.roles == old(registry.roles)[Ignite30Id := Ignite30Role()]
  {
    registry.RemoveRole(Ignite30Id);
    var def := Ignite30Role();
    registry.AddRole(Ignite30Id, def.displayName, def.capabilities);
  }

  /** The role table after start-up initialisation of `table`: each of the
      two roles is created only when it is absent. */
  function InitializedRoles(table: map<RoleId, Role>): (r: map<RoleId, Role>)
    ensures r.Keys == table.Keys + {MenOfFireId, Ignite30Id}
    ensures forall id :: id in table ==> r[id] == table[id]
    ensures MenOfFireId !in table ==> r[MenOfFireId] == MenOfFireRole()
    ensures Ignite30Id !in table ==> r[Ignite30Id] == Ignite30Role()
  {
    var withMenOfFire := if MenOfFireId in table then table else table[MenOfFireId := MenOfFireRole()];
    if Ignite30Id in table then withMenOfFire else withMenOfFire[Ignite30Id := Ignite30Role()]
  }

  /** Both lookups happen before either role is created. */
  method InitializeRoles(registry: RoleRegistry)
    modifies registry
    ensures registry.roles == InitializedRoles(old(registry.roles))
  {
    var menOfFireExists := registry.HasRole(MenOfFireId);
    var ignite30Exists := registry.HasRole(Ignite30Id);
    if !menOfFireExists {
      CreateMenOfFireRole(registry);
    }
    if !ignite30Exists {
      CreateIgnite30Role(registry);
    }
  }

  /** The two roles carry exactly the literal definitions. */
  predicate HasLiteralDefinitions(table: map<RoleId, Role>) {
    && MenOfFireId in table && table[MenOfFireId] == MenOfFireRole()
    && Ignite30Id in table && table[Ignite30Id] == Ignite30Role()
  }

  /** Initialising an already initialised table changes nothing. */
  lemma InitializeIsIdempotent(table: map<RoleId, Role>)
    ensures InitializedRoles(InitializedRoles(table)) == InitializedRoles(table)
  {
    var once := InitializedRoles(table);
    assert InitializedRoles(once).Keys == once.Keys;
  }

  /** Initialising a table that lacks both roles installs the literal
      definitions, so the capability flags match the fixed policy. */
  lemma InitializeFromEmptyInstallsLiterals(table: map<RoleId, Role>)
    requires MenOfFireId !in table && Ignite30Id !in table
    ensures HasLiteralDefinitions(InitializedRoles(table))
    ensures InitializedRoles(table)[Ignite30Id].capabilities[ViewArchive] == false
  {
  }

  /** A role that already exists is never repaired: a `menoffire` role whose
      capabilities differ from the literal keeps them after initialisation. */
  lemma InitializeKeepsDriftedRole(table: map<RoleId, Role>)
    requires MenOfFireId in table && table[MenOfFireId] != MenOfFireRole()
    ensures !HasLiteralDefinitions(InitializedRoles(table))
  {
  }
}
