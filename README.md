# Job-driven permission groups of the Jobs plugin

This project models, in Dafny, the permission handler of the Jobs plugin for
Bukkit servers (`BukkitPermissionHandler`). The handler does two things:

- **Recalculating a player's permissions.** It removes the player's two
  permission groups, `jobs.players.<name>.negative` and
  `jobs.players.<name>.positive`, from the plugin manager. It then builds two
  node maps from the player's job progressions. A job rule counts when the
  progression's level is at least the rule's level requirement. A player with
  no progressions gets the "none" job's rules whose requirement is at most 0.
  Granting rules go into the positive map, with the value true. Denying rules
  go into the negative map, with the value false. Each non-empty map is
  registered as a group with default FALSE. If anything was removed or added,
  the player gets an attachment owned by the plugin (a new one has both group
  names set to true), and the host recomputes the player's permissions.
- **Registering permissions.** It registers `jobs.world.<world>` for every
  world and `jobs.join.<job>` for every job, both lower-cased and with default
  TRUE. Names that are already registered are skipped.

Layout:

- `jobs.dfy`: the job containers (rules, jobs, progressions) and the
  eligibility test `Eligible`.
- `host.dfy`: the host objects the handler changes. These are the plugin
  manager's permission table, players and attachments, each a class with
  methods.
- `aggregation.dfy`: which nodes the progressions grant and deny, as
  functions (`GrantedNodes`, `NegativeMap`, `PositiveMap`), with lemmas that
  characterise them.
- `registry.dfy`: the permission table after a recalculation (`Reconciled`),
  the change flag (`Changed`), and the table after registration
  (`WithDefaults`), with their lemmas.
- `handler.dfy`: the handler itself. The loops that build the maps are in
  `ComputeGroups`. The class `BukkitPermissionHandler` has
  `RecalculatePermissions` and `RegisterPermissions`. The steps of the
  recalculation are split into small methods. They run in the source's order:
  remove both groups, add the non-empty maps, then refresh the player.

`RecalculatePermissions` returns its internal `changed` flag and, as ghost
values, the two maps it built. This lets its contract talk about them. The
source method returns nothing.

Where the design description of this component and the code disagree, the
model follows the code:

- Group names carry the `jobs.` prefix (`jobs.players.<name>.negative`).
- The description says that conflicting rules are resolved by "last write
  wins" and that the two sets are disjoint. In the code, the two maps are
  filled independently. A node granted by one job and denied by another ends
  up in both maps (`ConflictingRulesKeepBoth`).
- The description says that a second identical call reports no change. In the
  code, the second call removes the groups the first call added, so it reports
  a change again whenever a group is non-empty (`RepeatReportsChange`).

## Model

| member | source | states |
|---|---|---|
| `Aggregation.RuleNodesExact` | src/main/java/me/zford/jobs/bukkit/BukkitPermissionHandler.java:86-94 | a node is collected from a job's rules with a value exactly when some rule names it, carries that value and has `level >= levelRequirement` (inclusive) |
| `Aggregation.ProgressionNodesExact` | src/main/java/me/zford/jobs/bukkit/BukkitPermissionHandler.java:85-95 | a node is collected from the progressions exactly when some progression's job has such an eligible rule at that progression's level |
| `Aggregation.GrantedNodesExact` | src/main/java/me/zford/jobs/bukkit/BukkitPermissionHandler.java:71-96 | with progressions, membership is the per-progression rule above. With none, only the "none" job's rules with `levelRequirement <= 0` count. Without a "none" job, no node is collected |
| `Aggregation.GrantedNodesOrderIrrelevant` | src/main/java/me/zford/jobs/bukkit/BukkitPermissionHandler.java:85-95 | two progression lists with the same elements in any order give the same node sets |
| `Aggregation.GroupMapsSplitByValue` | src/main/java/me/zford/jobs/bukkit/BukkitPermissionHandler.java:69-104 | the positive map's keys are exactly the granted nodes, each mapped to true. The negative map's keys are exactly the denied nodes, each mapped to false. Each map has positive size exactly when its node set is non-empty |
| `Aggregation.MinerLevels` | src/main/java/me/zford/jobs/bukkit/BukkitPermissionHandler.java:87-89 | at level 5, a rule requiring level 3 is granted and a rule requiring level 10 is not |
| `Aggregation.ConflictingRulesKeepBoth` | src/main/java/me/zford/jobs/bukkit/BukkitPermissionHandler.java:85-95 | a node granted by one job and denied by another, both at level 0, is in both the positive and the negative map |
| `PermissionHandler.ComputeGroups` | src/main/java/me/zford/jobs/bukkit/BukkitPermissionHandler.java:67-96 | the nested loops build exactly `NegativeMap` and `PositiveMap` of the progressions and the "none" job |
| `PermissionHandler.NoChangeExactly` | src/main/java/me/zford/jobs/bukkit/BukkitPermissionHandler.java:50-111 | the call reports no change exactly when neither group was registered and no node is granted or denied |
| `PermissionHandler.BukkitPermissionHandler.RecalculatePermissions` | src/main/java/me/zford/jobs/bukkit/BukkitPermissionHandler.java:45-130 | if the player cannot be resolved, nothing changes. Otherwise: the table becomes `Reconciled` of the computed maps; `changed` is `Changed`; the player is recalculated once exactly when changed; an existing attachment is kept unmodified; a fresh attachment with both group names set to true is created only when changed and none existed |
| `PermissionHandler.BukkitPermissionHandler.ApplyGroups` | src/main/java/me/zford/jobs/bukkit/BukkitPermissionHandler.java:50-129 | installing given maps: the new table is `Reconciled`, the flag is `Changed`, and the player is refreshed as above |
| `PermissionHandler.BukkitPermissionHandler.ReplaceGroups` | src/main/java/me/zford/jobs/bukkit/BukkitPermissionHandler.java:53-107 | the table becomes `Reconciled(old table, player name, negative, positive)`, and the result is `Changed` of the old table |
| `PermissionHandler.BukkitPermissionHandler.ReplaceNamedGroups` | src/main/java/me/zford/jobs/bukkit/BukkitPermissionHandler.java:55-107 | for two distinct group names: remove both, then add each non-empty map. Reports whether a name was registered before or a map is non-empty |
| `PermissionHandler.BukkitPermissionHandler.RemoveIfPresent` | src/main/java/me/zford/jobs/bukkit/BukkitPermissionHandler.java:55-59 | the name is no longer registered, and the result says whether it was |
| `PermissionHandler.BukkitPermissionHandler.AddIfNonEmpty` | src/main/java/me/zford/jobs/bukkit/BukkitPermissionHandler.java:99-102 | a non-empty map is registered under the name with default FALSE, an empty one is not, and the result says which |
| `PermissionHandler.BukkitPermissionHandler.RefreshPlayer` | src/main/java/me/zford/jobs/bukkit/BukkitPermissionHandler.java:110-129 | without a change, the player is untouched. With a change, the player is recalculated once; an existing plugin attachment is reused; otherwise a fresh one with both group names set to true is attached |
| `PermissionHandler.BukkitPermissionHandler.RegisterPermissions` | src/main/java/me/zford/jobs/bukkit/BukkitPermissionHandler.java:133-143 | the table becomes `WithDefaults` of the old table and every world and join node |
| `Registry.GroupNamesDistinct` | src/main/java/me/zford/jobs/bukkit/BukkitPermissionHandler.java:53-54 | a player's negative and positive group names differ |
| `Registry.ReconciledGroups` | src/main/java/me/zford/jobs/bukkit/BukkitPermissionHandler.java:53-107 | after reconciling, each group is registered exactly when its map is non-empty, and then it holds that map with default FALSE. Every other name keeps its entry or stays absent |
| `Registry.ReplacedGroupsContents` | src/main/java/me/zford/jobs/bukkit/BukkitPermissionHandler.java:55-107 | the same as `ReconciledGroups`, for any two distinct group names |
| `Registry.UnchangedRegistry` | src/main/java/me/zford/jobs/bukkit/BukkitPermissionHandler.java:50-111 | when no change is reported, the table is left as it was |
| `Registry.RepeatReportsChange` | src/main/java/me/zford/jobs/bukkit/BukkitPermissionHandler.java:55-107 | repeating the call with the same maps reports a change exactly when one of the maps is non-empty, so the call is not a no-op on repetition |
| `Registry.ReconciledIgnoresOldGroups` | src/main/java/me/zford/jobs/bukkit/BukkitPermissionHandler.java:55-65 | the resulting table does not depend on the player's previous groups |
| `Registry.ReplacedGroupsIdempotent` | src/main/java/me/zford/jobs/bukkit/BukkitPermissionHandler.java:55-107 | replacing the same two groups twice with the same maps leaves the same table as replacing them once |
| `Registry.ReconciledIdempotent` | src/main/java/me/zford/jobs/bukkit/BukkitPermissionHandler.java:55-107 | the table reached by a recalculation does not change when the recalculation is repeated |
| `Registry.WithDefaultsAdds` | src/main/java/me/zford/jobs/bukkit/BukkitPermissionHandler.java:133-143 | registration only adds: the keys become old keys plus the new names, existing entries are untouched, and new names carry default TRUE with no children |
| `Registry.WithDefaultsIdempotent` | src/main/java/me/zford/jobs/bukkit/BukkitPermissionHandler.java:133-143 | registering the same names a second time changes nothing |
| `Registry.WithDefaultsStep` | src/main/java/me/zford/jobs/bukkit/BukkitPermissionHandler.java:136-137 | registering one more name adds it with default TRUE only when it is absent |
| `Host.PluginManager.AddPermission` | src/main/java/me/zford/jobs/bukkit/BukkitPermissionHandler.java:100 | the host accepts only a name that is not yet registered, and adds exactly that entry |
| `Host.PluginManager.RemovePermission` | src/main/java/me/zford/jobs/bukkit/BukkitPermissionHandler.java:57 | the name is removed, and nothing else changes |
| `Host.Player.AddAttachment` | src/main/java/me/zford/jobs/bukkit/BukkitPermissionHandler.java:123 | a fresh, empty attachment becomes the player's plugin-owned attachment |
| `Host.Attachment.SetPermission` | src/main/java/me/zford/jobs/bukkit/BukkitPermissionHandler.java:124-125 | the attachment maps the node to the value, and nothing else changes |
| `Host.Player.RecalculatePermissions` | src/main/java/me/zford/jobs/bukkit/BukkitPermissionHandler.java:129 | the player's recalculation count goes up by one, and the attachment is kept |

## Left out

- Resolving the player by name on the server (`getServer().getPlayer`) is not modelled. The resolved player, or null, is a parameter of `RecalculatePermissions`. Group names use the resolved player's name, as the code does.
- Finding the plugin's attachment by scanning the player's effective permissions for one owned by the Jobs plugin is not modelled. The model uses the field `Player.jobsAttachment`. When several such attachments exist, the code keeps the last one found; the model has at most one.
- What the host does when it recomputes a player's permissions is not modelled. Only a counter of the calls is kept.
- `String.toLowerCase` depends on the locale, so it is the parameter `lower` of `RegisterPermissions`.
- The global job catalogue (`Jobs.getNoneJob`, `Jobs.getJobs`) and the server's world list are parameters.
- The host's own handling of permission names is not modelled. This includes any case normalisation and the recomputation of dependent permissions on add or remove. The table is keyed by the exact name.
- Hash-map iteration order and hashing are not modelled; node maps are Dafny maps.
- Threads and the host's event dispatch are not modelled. The code does not use threads.
