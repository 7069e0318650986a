/**
 * The job containers read by the permission handler: permission rules,
 * jobs, a player's progressions and the player record itself.
 */
module Jobs {
  /** A conditional grant: `node` takes `value` once the level reaches `levelRequirement`. */
  datatype JobPermission = JobPermission(node: string, value: bool, levelRequirement: int)

  /** A job and its rules, in the order the job lists them. */
  datatype Job = Job(name: string, permissions: seq<JobPermission>)

  /** A player's level within one job. */
  datatype JobProgression = JobProgression(job: Job, level: int)

  /** The plugin's view of a player: a name and the progressions, in order. */
  datatype JobsPlayer = JobsPlayer(name: string, progression: seq<JobProgression>)

  /** A rule applies at `level` once the level reaches its requirement; the bound is inclusive. */
  predicate Eligible(level: int, perm: JobPermission)
  {
    level >= perm.levelRequirement
  }
}
