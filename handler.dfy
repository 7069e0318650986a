/**
 * The jobs plugin's permission handler: recomputes a player's job-driven
 * permission groups and registers the world and join permissions.
 */
module PermissionHandler {
  import opened Wrappers
  import opened Jobs
  import opened Host
  import opened Aggregation
  import opened Registry

  /** A map whose every entry carries `value` is the group map of its keys. */
  lemma PermissionMapOfKeys(m: map<string, bool>, value: bool)
    requires forall n :: n in m ==> m[n] == value
    ensures m == PermissionMap(m.Keys, value)
  {
  }

  /**
   * Builds the negative and positive node maps from a player's progressions
   * (or from the "none" job when there are none).
   */
  method ComputeGroups(progression: seq<JobProgression>, noneJob: Option<Job>)
    returns (negative: map<string, bool>, positive: map<string, bool>)
    ensures negative == NegativeMap(progression, noneJob)
    ensures positive == PositiveMap(progression, noneJob)
  {
    negative, positive := map[], map[];
    if |progression| == 0 {
      if noneJob.Some? {
        var rules := noneJob.value.permissions;
        for j := 0 to |rules|
          invariant negative.Keys == RuleNodes(0, rules[..j], false)
          invariant positive.Keys == RuleNodes(0, rules[..j], true)
          invariant forall n :: n in negative ==> !negative[n]
          invariant forall n :: n in positive ==> positive[n]
        {
          var perm := rules[j];
          RuleNodesPrefix(0, rules, j, false);
          RuleNodesPrefix(0, rules, j, true);
          if perm.levelRequirement <= 0 {
            if perm.value {
              positive := positive[perm.node := true];
            } else {
              negative := negative[perm.node := false];
            }
          }
        }
        assert rules[..|rules|] == rules;
      }
    } else {
      for i := 0 to |progression|
        invariant negative.Keys == ProgressionNodes(progression[..i], false)
        invariant positive.Keys == ProgressionNodes(progression[..i], true)
        invariant forall n :: n in negative ==> !negative[n]
        invariant forall n :: n in positive ==> positive[n]
      {
        var prog := progression[i];
        var rules := prog.job.permissions;
        ghost var deniedBefore := ProgressionNodes(progression[..i], false);
        ghost var grantedBefore := ProgressionNodes(progression[..i], true);
        for j := 0 to |rules|
          invariant negative.Keys == deniedBefore + RuleNodes(prog.level, rules[..j], false)
          invariant positive.Keys == grantedBefore + RuleNodes(prog.level, rules[..j], true)
          invariant forall n :: n in negative ==> !negative[n]
          invariant forall n :: n in positive ==> positive[n]
        {
          var perm := rules[j];
          RuleNodesPrefix(prog.level, rules, j, false);
          RuleNodesPrefix(prog.level, rules, j, true);
          if prog.level >= perm.levelRequirement {
            if perm.value {
              positive := positive[perm.node := true];
            } else {
              negative := negative[perm.node := false];
            }
          }
        }
        assert rules[..|rules|] == rules;
        ProgressionNodesPrefix(progression, i, false);
        ProgressionNodesPrefix(progression, i, true);
      }
      assert progression[..|progression|] == progression;
    }
    PermissionMapOfKeys(negative, false);
    PermissionMapOfKeys(positive, true);
  }

  /**
   * A recalculation reports no change exactly when neither group of the
   * player was registered and the progressions grant and deny nothing.
   */
  lemma NoChangeExactly(reg: PermissionTable, playerName: string, progression: seq<JobProgression>, noneJob: Option<Job>)
    ensures !Changed(reg, playerName, NegativeMap(progression, noneJob), PositiveMap(progression, noneJob))
        <==> (NegativeGroupName(playerName) !in reg && PositiveGroupName(playerName) !in reg
              && GrantedNodes(progression, noneJob, false) == {} && GrantedNodes(progression, noneJob, true) == {})
  {
    GroupMapsSplitByValue(progression, noneJob);
  }

  class BukkitPermissionHandler {
    const pluginManager: PluginManager

    constructor (pluginManager: PluginManager)
      ensures this.pluginManager == pluginManager
    {
      this.pluginManager := pluginManager;
    }

    /**
     * Recomputes the permission groups of `jPlayer`. `player` is what the
     * server resolves `jPlayer`'s name to (null when it cannot), and
     * `noneJob` is the plugin's "none" job, if configured. The method's
     * internal flag `changed` and the two maps it builds are returned so
     * that the contract can speak of them.
     */
    method RecalculatePermissions(jPlayer: JobsPlayer, player: Player?, noneJob: Option<Job>)
      returns (changed: bool, ghost negative: map<string, bool>, ghost positive: map<string, bool>)
      modifies pluginManager, player
      ensures negative == NegativeMap(jPlayer.progression, noneJob)
      ensures positive == PositiveMap(jPlayer.progression, noneJob)
      ensures player == null ==> !changed && unchanged(pluginManager)
      ensures player != null ==>
        && pluginManager.permissions == Reconciled(old(pluginManager.permissions), player.name, negative, positive)
        && changed == Changed(old(pluginManager.permissions), player.name, negative, positive)
      ensures player != null ==>
        player.recalculations == if changed then old(player.recalculations) + 1 else old(player.recalculations)
      ensures player != null && (old(player.jobsAttachment) != null || !changed) ==>
        player.jobsAttachment == old(player.jobsAttachment)
      ensures player != null && old(player.jobsAttachment) != null ==> unchanged(old(player.jobsAttachment))
      ensures player != null && old(player.jobsAttachment) == null && changed ==>
        player.jobsAttachment != null && fresh(player.jobsAttachment)
          && player.jobsAttachment.permissions
             == map[NegativeGroupName(player.name) := true, PositiveGroupName(player.name) := true]
    {
      changed := false;
      if player == null {
        negative, positive := NegativeMap(jPlayer.progression, noneJob), PositiveMap(jPlayer.progression, noneJob);
        return;
      }
      var negativeNodes, positiveNodes := ComputeGroups(jPlayer.progression, noneJob);
      negative, positive := negativeNodes, positiveNodes;
      changed := ApplyGroups(player, negativeNodes, positiveNodes);
    }

    /**
     * Installs the two computed maps as the player's groups and, if anything
     * changed, refreshes the player.
     */
    method ApplyGroups(player: Player, negative: map<string, bool>, positive: map<string, bool>)
      returns (changed: bool)
      modifies pluginManager, player
      ensures pluginManager.permissions == Reconciled(old(pluginManager.permissions), player.name, negative, positive)
      ensures changed == Changed(old(pluginManager.permissions), player.name, negative, positive)
      ensures player.recalculations == if changed then old(player.recalculations) + 1 else old(player.recalculations)
      ensures old(player.jobsAttachment) != null || !changed ==> player.jobsAttachment == old(player.jobsAttachment)
      ensures old(player.jobsAttachment) != null ==> unchanged(old(player.jobsAttachment))
      ensures old(player.jobsAttachment) == null && changed ==>
        player.jobsAttachment != null && fresh(player.jobsAttachment)
          && player.jobsAttachment.permissions
             == map[NegativeGroupName(player.name) := true, PositiveGroupName(player.name) := true]
    {
      changed := ReplaceGroups(player.name, negative, positive);
      RefreshPlayer(player, changed);
    }

    /**
     * When the groups changed, makes sure the player has an attachment owned
     * by the jobs plugin (a new one gets both group names set to true) and
     * has the host recompute the player's permissions.
     */
    method RefreshPlayer(player: Player, changed: bool)
      modifies player
      ensures player.recalculations == if changed then old(player.recalculations) + 1 else old(player.recalculations)
      ensures old(player.jobsAttachment) != null || !changed ==> player.jobsAttachment == old(player.jobsAttachment)
      ensures old(player.jobsAttachment) == null && changed ==>
        player.jobsAttachment != null && fresh(player.jobsAttachment)
          && player.jobsAttachment.permissions
             == map[NegativeGroupName(player.name) := true, PositiveGroupName(player.name) := true]
    {
      if !changed {
        return;
      }

      var attachment := player.jobsAttachment;
      if attachment == null {
        attachment := player.AddAttachment();
        attachment.SetPermission(NegativeGroupName(player.name), true);
        attachment.SetPermission(PositiveGroupName(player.name), true);
      }

      player.RecalculatePermissions();
    }

    /**
     * Removes the player's old negative and positive groups, then registers
     * each new map that is non-empty with default FALSE; reports whether
     * anything was removed or added.
     */
    method ReplaceGroups(playerName: string, negative: map<string, bool>, positive: map<string, bool>)
      returns (changed: bool)
      modifies pluginManager
      ensures pluginManager.permissions == Reconciled(old(pluginManager.permissions), playerName, negative, positive)
      ensures changed == Changed(old(pluginManager.permissions), playerName, negative, positive)
    {
      GroupNamesDistinct(playerName);
      changed := ReplaceNamedGroups(NegativeGroupName(playerName), PositiveGroupName(playerName), negative, positive);
    }

    method ReplaceNamedGroups(negativePermName: string, positivePermName: string,
                              negative: map<string, bool>, positive: map<string, bool>)
      returns (changed: bool)
      requires negativePermName != positivePermName
      modifies pluginManager
      ensures pluginManager.permissions ==
        ReplacedGroups(old(pluginManager.permissions), negativePermName, positivePermName, negative, positive)
      ensures changed == (negativePermName in old(pluginManager.permissions)
        || positivePermName in old(pluginManager.permissions) || |negative| > 0 || |positive| > 0)
    {
      var removedNegative := RemoveIfPresent(negativePermName);
      var removedPositive := RemoveIfPresent(positivePermName);
      var addedNegative := AddIfNonEmpty(negativePermName, negative);
      var addedPositive := AddIfNonEmpty(positivePermName, positive);
      changed := removedNegative || removedPositive || addedNegative || addedPositive;
    }

    /** Looks a group up by name and removes it if it is registered. */
    method RemoveIfPresent(name: string) returns (removed: bool)
      modifies pluginManager
      ensures pluginManager.permissions == old(pluginManager.permissions) - {name}
      ensures removed == (name in old(pluginManager.permissions))
    {
      removed := name in pluginManager.permissions;
      if removed {
        pluginManager.RemovePermission(name);
      }
    }

    /** Registers a group with default FALSE holding `nodes`, unless `nodes` is empty. */
    method AddIfNonEmpty(name: string, nodes: map<string, bool>) returns (added: bool)
      requires name !in pluginManager.permissions
      modifies pluginManager
      ensures pluginManager.permissions == AddedGroup(old(pluginManager.permissions), name, nodes)
      ensures added == (|nodes| > 0)
    {
      added := |nodes| > 0;
      if added {
        pluginManager.AddPermission(name, Permission(FALSE, nodes));
      }
    }

    /**
     * Registers `jobs.world.<world>` for every world and `jobs.join.<job>`
     * for every job, names lowered by `lower`, where not yet registered.
     */
    method RegisterPermissions(worldNames: seq<string>, jobs: seq<Job>, lower: string -> string)
      modifies pluginManager
      ensures pluginManager.permissions ==
        WithDefaults(old(pluginManager.permissions), WorldNodes(worldNames, lower) + JoinNodes(jobs, lower))
    {
      ghost var before := pluginManager.permissions;
      for i := 0 to |worldNames|
        invariant pluginManager.permissions == WithDefaults(before, WorldNodes(worldNames[..i], lower))
      {
        var node := WorldNode(worldNames[i], lower);
        WithDefaultsStep(before, WorldNodes(worldNames[..i], lower), node);
        if node !in pluginManager.permissions {
          pluginManager.AddPermission(node, OpenPermission());
        }
        assert worldNames[..i + 1][..i] == worldNames[..i];
      }
      assert worldNames[..|worldNames|] == worldNames;
      ghost var worldNodes := WorldNodes(worldNames, lower);
      for i := 0 to |jobs|
        invariant pluginManager.permissions == WithDefaults(before, worldNodes + JoinNodes(jobs[..i], lower))
      {
        var node := JoinNode(jobs[i].name, lower);
        WithDefaultsStep(before, worldNodes + JoinNodes(jobs[..i], lower), node);
        if node !in pluginManager.permissions {
          pluginManager.AddPermission(node, OpenPermission());
        }
        assert jobs[..i + 1][..i] == jobs[..i];
        assert worldNodes + JoinNodes(jobs[..i + 1], lower) == worldNodes + JoinNodes(jobs[..i], lower) + {node};
      }
      assert jobs[..|jobs|] == jobs;
    }
  }
}
