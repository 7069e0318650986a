/**
 * What the handler does to the host's permission registry, stated on
 * values: the per-player groups it reconciles and the world/join nodes it
 * registers with a default of TRUE.
 */
module Registry {
  import opened Host
  import opened Jobs

  /** The plugin manager's permissions, keyed by name. */
  type PermissionTable = map<string, Permission>

  function NegativeGroupName(playerName: string): string
  {
    "jobs.players." + playerName + ".negative"
  }

  function PositiveGroupName(playerName: string): string
  {
    "jobs.players." + playerName + ".positive"
  }

  /** The two group names of a player never collide. */
  lemma GroupNamesDistinct(playerName: string)
    ensures NegativeGroupName(playerName) != PositiveGroupName(playerName)
  {
    var k := |"jobs.players." + playerName| + 1;
    assert NegativeGroupName(playerName)[k] == 'n';
    assert PositiveGroupName(playerName)[k] == 'p';
  }

  /**
   * The registry after a recalculation: both old groups of the player are
   * removed, then each computed map is registered with default FALSE if it
   * is non-empty.
   */
  function Reconciled(reg: PermissionTable, playerName: string, negative: map<string, bool>, positive: map<string, bool>): PermissionTable
  {
    ReplacedGroups(reg, NegativeGroupName(playerName), PositiveGroupName(playerName), negative, positive)
  }

  /** Removes `negativeName` and then `positiveName`, then registers each non-empty map under its name. */
  function ReplacedGroups(reg: PermissionTable, negativeName: string, positiveName: string,
                          negative: map<string, bool>, positive: map<string, bool>): PermissionTable
  {
    AddedGroup(AddedGroup(reg - {negativeName} - {positiveName}, negativeName, negative), positiveName, positive)
  }

  /** Registers `nodes` under `name` with default FALSE, unless `nodes` is empty. */
  function AddedGroup(reg: PermissionTable, name: string, nodes: map<string, bool>): PermissionTable
  {
    if |nodes| > 0 then reg[name := Permission(FALSE, nodes)] else reg
  }

  /** Whether a recalculation removes or adds anything. */
  predicate Changed(reg: PermissionTable, playerName: string, negative: map<string, bool>, positive: map<string, bool>)
  {
    NegativeGroupName(playerName) in reg || PositiveGroupName(playerName) in reg || |negative| > 0 || |positive| > 0
  }

  /**
   * After reconciling, each group is present exactly when its map is
   * non-empty and then holds that map with default FALSE; every other name
   * is as before.
   */
  lemma ReconciledGroups(reg: PermissionTable, playerName: string, negative: map<string, bool>, positive: map<string, bool>)
    ensures var r := Reconciled(reg, playerName, negative, positive);
      (NegativeGroupName(playerName) in r <==> |negative| > 0) &&
      (PositiveGroupName(playerName) in r <==> |positive| > 0) &&
      (|negative| > 0 ==> r[NegativeGroupName(playerName)] == Permission(FALSE, negative)) &&
      (|positive| > 0 ==> r[PositiveGroupName(playerName)] == Permission(FALSE, positive))
    ensures var r := Reconciled(reg, playerName, negative, positive);
      forall name :: name != NegativeGroupName(playerName) && name != PositiveGroupName(playerName) ==>
        (name in r <==> name in reg) && (name in reg ==> r[name] == reg[name])
  {
    GroupNamesDistinct(playerName);
    ReplacedGroupsContents(reg, NegativeGroupName(playerName), PositiveGroupName(playerName), negative, positive);
  }

  /** What ReplacedGroups leaves under each name, for two distinct group names. */
  lemma ReplacedGroupsContents(reg: PermissionTable, n: string, p: string, negative: map<string, bool>, positive: map<string, bool>)
    requires n != p
    ensures var r := ReplacedGroups(reg, n, p, negative, positive);
      (n in r <==> |negative| > 0) && (p in r <==> |positive| > 0) &&
      (|negative| > 0 ==> r[n] == Permission(FALSE, negative)) &&
      (|positive| > 0 ==> r[p] == Permission(FALSE, positive))
    ensures var r := ReplacedGroups(reg, n, p, negative, positive);
      forall name :: name != n && name != p ==> (name in r <==> name in reg) && (name in reg ==> r[name] == reg[name])
  {
  }

  /** Removing two names one after the other removes both. */
  lemma RemoveBoth(reg: PermissionTable, first: string, second: string)
    ensures reg - {first} - {second} == reg - {first, second}
  {
    assert (reg - {first} - {second}).Keys == (reg - {first, second}).Keys;
  }

  /** A recalculation that reports no change leaves the registry as it was. */
  lemma UnchangedRegistry(reg: PermissionTable, playerName: string, negative: map<string, bool>, positive: map<string, bool>)
    requires !Changed(reg, playerName, negative, positive)
    ensures Reconciled(reg, playerName, negative, positive) == reg
  {
    var n, p := NegativeGroupName(playerName), PositiveGroupName(playerName);
    assert reg - {n} == reg;
    assert reg - {n} - {p} == reg;
  }

  /**
   * Repeating a recalculation with the same maps reports a change again
   * whenever a group is registered: the second call removes what the first
   * one added, so the operation is not a no-op on repetition.
   */
  lemma RepeatReportsChange(reg: PermissionTable, playerName: string, negative: map<string, bool>, positive: map<string, bool>)
    ensures Changed(Reconciled(reg, playerName, negative, positive), playerName, negative, positive)
        <==> |negative| > 0 || |positive| > 0
  {
    ReconciledGroups(reg, playerName, negative, positive);
  }

  /** Reconciling reads nothing of the player's old groups. */
  lemma ReconciledIgnoresOldGroups(reg: PermissionTable, reg': PermissionTable, playerName: string, negative: map<string, bool>, positive: map<string, bool>)
    requires reg - {NegativeGroupName(playerName), PositiveGroupName(playerName)}
          == reg' - {NegativeGroupName(playerName), PositiveGroupName(playerName)}
    ensures Reconciled(reg, playerName, negative, positive) == Reconciled(reg', playerName, negative, positive)
  {
    RemoveBoth(reg, NegativeGroupName(playerName), PositiveGroupName(playerName));
    RemoveBoth(reg', NegativeGroupName(playerName), PositiveGroupName(playerName));
  }

  /** Registering a group and then removing its name is the same as removing the name. */
  lemma AddedGroupRemoved(m: PermissionTable, name: string, nodes: map<string, bool>)
    ensures AddedGroup(m, name, nodes) - {name} == m - {name}
  {
    if |nodes| > 0 {
      assert (m[name := Permission(FALSE, nodes)] - {name}).Keys == (m - {name}).Keys;
    }
  }

  /** Removing two distinct names commutes with registering under one of them. */
  lemma AddedGroupRemovedOther(m: PermissionTable, name: string, other: string, nodes: map<string, bool>)
    requires name != other
    ensures AddedGroup(m, name, nodes) - {other} == AddedGroup(m - {other}, name, nodes)
  {
    if |nodes| > 0 {
      assert (m[name := Permission(FALSE, nodes)] - {other}).Keys == ((m - {other})[name := Permission(FALSE, nodes)]).Keys;
    }
  }

  /** Removing both names again undoes registering both groups. */
  lemma AddedGroupsRemoved(base: PermissionTable, n: string, p: string, negative: map<string, bool>, positive: map<string, bool>)
    requires n != p && n !in base && p !in base
    ensures AddedGroup(AddedGroup(base, n, negative), p, positive) - {n} - {p} == base
  {
    var withNegative := AddedGroup(base, n, negative);
    calc {
      AddedGroup(withNegative, p, positive) - {n} - {p};
      { AddedGroupRemovedOther(withNegative, p, n, positive); }
      AddedGroup(withNegative - {n}, p, positive) - {p};
      { AddedGroupRemoved(withNegative - {n}, p, positive); }
      withNegative - {n} - {p};
      { AddedGroupRemoved(base, n, negative); }
      base - {n} - {p};
      { assert base - {n} == base; assert base - {p} == base; }
      base;
    }
  }

  /** Replacing the same two groups twice with the same maps is the same as once. */
  lemma ReplacedGroupsIdempotent(reg: PermissionTable, n: string, p: string, negative: map<string, bool>, positive: map<string, bool>)
    requires n != p
    ensures ReplacedGroups(ReplacedGroups(reg, n, p, negative, positive), n, p, negative, positive)
        == ReplacedGroups(reg, n, p, negative, positive)
  {
    var base := reg - {n} - {p};
    var r := AddedGroup(AddedGroup(base, n, negative), p, positive);
    AddedGroupsRemoved(base, n, p, negative, positive);
    calc {
      ReplacedGroups(r, n, p, negative, positive);
      AddedGroup(AddedGroup(r - {n} - {p}, n, negative), p, positive);
      AddedGroup(AddedGroup(base, n, negative), p, positive);
    }
  }

  /** The registry reached by a recalculation is the same however often it is repeated. */
  lemma ReconciledIdempotent(reg: PermissionTable, playerName: string, negative: map<string, bool>, positive: map<string, bool>)
    ensures Reconciled(Reconciled(reg, playerName, negative, positive), playerName, negative, positive)
        == Reconciled(reg, playerName, negative, positive)
  {
    GroupNamesDistinct(playerName);
    ReplacedGroupsIdempotent(reg, NegativeGroupName(playerName), PositiveGroupName(playerName), negative, positive);
  }

  function WorldNode(worldName: string, lower: string -> string): string
  {
    "jobs.world." + lower(worldName)
  }

  function JoinNode(jobName: string, lower: string -> string): string
  {
    "jobs.join." + lower(jobName)
  }

  /** The world nodes of `worldNames`, lowered by `lower`. */
  function WorldNodes(worldNames: seq<string>, lower: string -> string): set<string>
  {
    if worldNames == [] then {}
    else WorldNodes(worldNames[..|worldNames| - 1], lower) + {WorldNode(worldNames[|worldNames| - 1], lower)}
  }

  /** The join nodes of the names of `jobs`, lowered by `lower`. */
  function JoinNodes(jobs: seq<Job>, lower: string -> string): set<string>
  {
    if jobs == [] then {}
    else JoinNodes(jobs[..|jobs| - 1], lower) + {JoinNode(jobs[|jobs| - 1].name, lower)}
  }

  /** The permission registered for a world or join node: default TRUE, no children. */
  function OpenPermission(): Permission
  {
    Permission(TRUE, map[])
  }

  /** The registry after every name in `names` that is absent has been registered. */
  function WithDefaults(reg: PermissionTable, names: set<string>): PermissionTable
  {
    map name | name in reg.Keys + names :: if name in reg then reg[name] else OpenPermission()
  }

  /**
   * Registration only adds: existing entries are untouched and the new
   * names carry default TRUE.
   */
  lemma WithDefaultsAdds(reg: PermissionTable, names: set<string>)
    ensures WithDefaults(reg, names).Keys == reg.Keys + names
    ensures forall name :: name in reg ==> WithDefaults(reg, names)[name] == reg[name]
    ensures forall name :: name in names && name !in reg ==> WithDefaults(reg, names)[name] == OpenPermission()
  {
  }

  /** Registering the same names again changes nothing. */
  lemma WithDefaultsIdempotent(reg: PermissionTable, names: set<string>)
    ensures WithDefaults(WithDefaults(reg, names), names) == WithDefaults(reg, names)
  {
    var once := WithDefaults(reg, names);
    assert once.Keys + names == once.Keys;
  }

  /** Registering one more name, if absent, extends the registered set by that name. */
  lemma WithDefaultsStep(reg: PermissionTable, names: set<string>, name: string)
    ensures var r := WithDefaults(reg, names);
      WithDefaults(reg, names + {name}) == if name in r then r else r[name := OpenPermission()]
  {
    var r := WithDefaults(reg, names);
    var r' := WithDefaults(reg, names + {name});
    assert r'.Keys == r.Keys + {name};
  }
}
