/**
 * The parts of the server host the handler talks to: the plugin manager's
 * permission registry, players, and permission attachments.
 */
module Host {
  /** Who holds a registered permission when nothing else decides. */
  datatype PermissionDefault = TRUE | FALSE | OP | NOT_OP

  /** A registered permission: its default and the child nodes it sets. */
  datatype Permission = Permission(default: PermissionDefault, children: map<string, bool>)

  /** The plugin manager's registry of permissions, keyed by name. */
  class PluginManager {
    var permissions: map<string, Permission>

    constructor (permissions: map<string, Permission>)
      ensures this.permissions == permissions
    {
      this.permissions := permissions;
    }

    /** Registering a name that is already taken is refused by the host. */
    method AddPermission(name: string, perm: Permission)
      requires name !in permissions
      modifies this
      ensures permissions == old(permissions)[name := perm]
    {
      permissions := permissions[name := perm];
    }

    /** Removing a name that is not registered changes nothing. */
    method RemovePermission(name: string)
      modifies this
      ensures permissions == old(permissions) - {name}
    {
      permissions := permissions - {name};
    }
  }

  /** A binding through which a plugin sets permission values on a player. */
  class Attachment {
    var permissions: map<string, bool>

    constructor ()
      ensures permissions == map[]
    {
      permissions := map[];
    }

    method SetPermission(node: string, value: bool)
      modifies this
      ensures permissions == old(permissions)[node := value]
    {
      permissions := permissions[node := value];
    }
  }

  /**
   * An online player. `jobsAttachment` is the attachment owned by the jobs
   * plugin, if the player has one; `recalculations` counts how often the
   * host was asked to recompute the player's effective permissions.
   */
  class Player {
    const name: string
    var jobsAttachment: Attachment?
    var recalculations: nat

    constructor (name: string, jobsAttachment: Attachment?)
      ensures this.name == name && this.jobsAttachment == jobsAttachment
      ensures recalculations == 0
    {
      this.name := name;
      this.jobsAttachment := jobsAttachment;
      recalculations := 0;
    }

    /** Creates an empty attachment owned by the jobs plugin. */
    method AddAttachment() returns (a: Attachment)
      modifies this
      ensures fresh(a) && a.permissions == map[]
      ensures jobsAttachment == a && recalculations == old(recalculations)
    {
      a := new Attachment();
      jobsAttachment := a;
    }

    method RecalculatePermissions()
      modifies this
      ensures recalculations == old(recalculations) + 1
      ensures jobsAttachment == old(jobsAttachment)
    {
      recalculations := recalculations + 1;
    }
  }
}
