/**
 * Which permission nodes a player's progressions grant and deny: the
 * specification of the two node maps that `recalculatePermissions` builds.
 */
module Aggregation {
  import opened Wrappers
  import opened Jobs

  /** Nodes of the rules in `rules` that apply at `level` and carry `value`. */
  function RuleNodes(level: int, rules: seq<JobPermission>, value: bool): set<string>
  {
    if rules == [] then {}
    else
      var last := rules[|rules| - 1];
      RuleNodes(level, rules[..|rules| - 1], value)
        + (if Eligible(level, last) && last.value == value then {last.node} else {})
  }

  /** Nodes carrying `value` contributed by every progression, each at its own level. */
  function ProgressionNodes(progression: seq<JobProgression>, value: bool): set<string>
  {
    if progression == [] then {}
    else
      var last := progression[|progression| - 1];
      ProgressionNodes(progression[..|progression| - 1], value)
        + RuleNodes(last.level, last.job.permissions, value)
  }

  /**
   * Nodes carrying `value` for a player. Without progressions the "none"
   * job's rules are read as at level 0, i.e. those with a requirement of at
   * most 0; without a "none" job there are none.
   */
  function GrantedNodes(progression: seq<JobProgression>, noneJob: Option<Job>, value: bool): set<string>
  {
    if progression != [] then ProgressionNodes(progression, value)
    else if noneJob.Some? then RuleNodes(0, noneJob.value.permissions, value)
    else {}
  }

  /** The node map registered for a group: every node mapped to `value`. */
  function PermissionMap(nodes: set<string>, value: bool): map<string, bool>
  {
    map n | n in nodes :: value
  }

  /** The map registered as the player's negative group: denied nodes, each mapped to false. */
  function NegativeMap(progression: seq<JobProgression>, noneJob: Option<Job>): map<string, bool>
  {
    PermissionMap(GrantedNodes(progression, noneJob, false), false)
  }

  /** The map registered as the player's positive group: granted nodes, each mapped to true. */
  function PositiveMap(progression: seq<JobProgression>, noneJob: Option<Job>): map<string, bool>
  {
    PermissionMap(GrantedNodes(progression, noneJob, true), true)
  }

  /** Extending a prefix of the rules by one rule adds at most that rule's node. */
  lemma RuleNodesPrefix(level: int, rules: seq<JobPermission>, j: int, value: bool)
    requires 0 <= j < |rules|
    ensures RuleNodes(level, rules[..j + 1], value) == RuleNodes(level, rules[..j], value)
      + (if Eligible(level, rules[j]) && rules[j].value == value then {rules[j].node} else {})
  {
    assert rules[..j + 1][..j] == rules[..j];
  }

  /** Extending a prefix of the progressions by one adds that progression's nodes. */
  lemma ProgressionNodesPrefix(progression: seq<JobProgression>, i: int, value: bool)
    requires 0 <= i < |progression|
    ensures ProgressionNodes(progression[..i + 1], value) == ProgressionNodes(progression[..i], value)
      + RuleNodes(progression[i].level, progression[i].job.permissions, value)
  {
    assert progression[..i + 1][..i] == progression[..i];
  }

  /** Some rule in `rules` applies at `level`, names `node` and carries `value`. */
  ghost predicate RuleGrants(level: int, rules: seq<JobPermission>, node: string, value: bool)
  {
    exists j :: 0 <= j < |rules| && rules[j].node == node && rules[j].value == value && Eligible(level, rules[j])
  }

  /** Some progression has a rule that applies at its level, names `node` and carries `value`. */
  ghost predicate ProgressionGrants(progression: seq<JobProgression>, node: string, value: bool)
  {
    exists p :: p in progression && RuleGrants(p.level, p.job.permissions, node, value)
  }

  lemma {:induction false} RuleNodesExact(level: int, rules: seq<JobPermission>, node: string, value: bool)
    ensures node in RuleNodes(level, rules, value) <==> RuleGrants(level, rules, node, value)
  {
    if rules != [] {
      var init := rules[..|rules| - 1];
      var last := rules[|rules| - 1];
      RuleNodesExact(level, init, node, value);
      if RuleGrants(level, init, node, value) {
        var j :| 0 <= j < |init| && init[j].node == node && init[j].value == value && Eligible(level, init[j]);
        assert rules[j] == init[j];
      }
      if RuleGrants(level, rules, node, value) {
        var j :| 0 <= j < |rules| && rules[j].node == node && rules[j].value == value && Eligible(level, rules[j]);
        if j < |init| {
          assert init[j] == rules[j];
        }
      }
      if Eligible(level, last) && last.value == value && last.node == node {
        assert rules[|rules| - 1] == last;
      }
    }
  }

  lemma {:induction false} ProgressionNodesExact(progression: seq<JobProgression>, node: string, value: bool)
    ensures node in ProgressionNodes(progression, value) <==> ProgressionGrants(progression, node, value)
  {
    if progression != [] {
      var init := progression[..|progression| - 1];
      var last := progression[|progression| - 1];
      ProgressionNodesExact(init, node, value);
      RuleNodesExact(last.level, last.job.permissions, node, value);
      assert progression == init + [last];
      if ProgressionGrants(progression, node, value) && !RuleGrants(last.level, last.job.permissions, node, value) {
        var p :| p in progression && RuleGrants(p.level, p.job.permissions, node, value);
        assert p in init;
      }
    }
  }

  /**
   * The full membership rule: a node is granted with `value` exactly when
   * some progression's job has an eligible rule for it with that value, or,
   * with no progressions, the "none" job has such a rule with a requirement
   * of at most 0.
   */
  lemma GrantedNodesExact(progression: seq<JobProgression>, noneJob: Option<Job>, node: string, value: bool)
    ensures progression != [] ==>
      (node in GrantedNodes(progression, noneJob, value) <==> ProgressionGrants(progression, node, value))
    ensures progression == [] && noneJob.Some? ==>
      (node in GrantedNodes(progression, noneJob, value) <==>
        exists j :: 0 <= j < |noneJob.value.permissions|
          && noneJob.value.permissions[j].node == node
          && noneJob.value.permissions[j].value == value
          && noneJob.value.permissions[j].levelRequirement <= 0)
    ensures progression == [] && noneJob.None? ==> GrantedNodes(progression, noneJob, value) == {}
  {
    if progression != [] {
      ProgressionNodesExact(progression, node, value);
    } else if noneJob.Some? {
      RuleNodesExact(0, noneJob.value.permissions, node, value);
    }
  }

  /** Only which progressions a player has matters, not their order. */
  lemma GrantedNodesOrderIrrelevant(p: seq<JobProgression>, q: seq<JobProgression>, noneJob: Option<Job>, value: bool)
    requires multiset(p) == multiset(q)
    ensures GrantedNodes(p, noneJob, value) == GrantedNodes(q, noneJob, value)
  {
    assert |p| == |multiset(p)| == |multiset(q)| == |q|;
    if p != [] {
      forall node
        ensures node in ProgressionNodes(p, value) <==> node in ProgressionNodes(q, value)
      {
        ProgressionNodesExact(p, node, value);
        ProgressionNodesExact(q, node, value);
        forall g ensures g in p <==> g in q {
          assert g in p <==> g in multiset(p);
          assert g in q <==> g in multiset(q);
        }
      }
    }
  }

  /**
   * The group maps split the eligible nodes by value: the positive map holds
   * exactly the granted nodes, each mapped to true, the negative map exactly
   * the denied ones, each mapped to false; each is empty exactly when there
   * is no such node.
   */
  lemma GroupMapsSplitByValue(progression: seq<JobProgression>, noneJob: Option<Job>)
    ensures PositiveMap(progression, noneJob).Keys == GrantedNodes(progression, noneJob, true)
    ensures NegativeMap(progression, noneJob).Keys == GrantedNodes(progression, noneJob, false)
    ensures forall n :: n in PositiveMap(progression, noneJob) ==> PositiveMap(progression, noneJob)[n]
    ensures forall n :: n in NegativeMap(progression, noneJob) ==> !NegativeMap(progression, noneJob)[n]
    ensures |PositiveMap(progression, noneJob)| > 0 <==> GrantedNodes(progression, noneJob, true) != {}
    ensures |NegativeMap(progression, noneJob)| > 0 <==> GrantedNodes(progression, noneJob, false) != {}
  {
    var positive, negative := PositiveMap(progression, noneJob), NegativeMap(progression, noneJob);
    assert |positive| == |positive.Keys|;
    assert |negative| == |negative.Keys|;
  }

  /** A miner at level 5 gets a rule needing level 3 but not one needing level 10. */
  lemma MinerLevels()
    ensures
      var miner := Job("Miner", [JobPermission("jobs.miner.smelt", true, 3), JobPermission("jobs.miner.vip", true, 10)]);
      var progression := [JobProgression(miner, 5)];
      "jobs.miner.smelt" in GrantedNodes(progression, None, true)
        && "jobs.miner.vip" !in GrantedNodes(progression, None, true)
  {
    var miner := Job("Miner", [JobPermission("jobs.miner.smelt", true, 3), JobPermission("jobs.miner.vip", true, 10)]);
    var progression := [JobProgression(miner, 5)];
    var rules := miner.permissions;
    assert rules[..1] == [rules[0]] && rules[..1][..0] == [];
    assert RuleNodes(5, rules[..1], true) == {"jobs.miner.smelt"};
    assert RuleNodes(5, rules, true) == {"jobs.miner.smelt"};
    assert progression[..0] == [];
    assert "jobs.miner.vip"[11] != "jobs.miner.smelt"[11];
  }

  /**
   * A node granted by one job and denied by another lands in both maps:
   * the two maps are filled independently and neither overrides the other.
   */
  lemma ConflictingRulesKeepBoth()
    ensures
      var a := Job("A", [JobPermission("x", true, 0)]);
      var b := Job("B", [JobPermission("x", false, 0)]);
      var progression := [JobProgression(a, 0), JobProgression(b, 0)];
      "x" in GrantedNodes(progression, None, true) && "x" in GrantedNodes(progression, None, false)
  {
  }
}
