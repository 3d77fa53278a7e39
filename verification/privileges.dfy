/** Which privilege step the front-ends take before doing anything else. Both
    `cli/src/main.rs` and `src/main.rs` make the same decision; the capability
    and id changes themselves are calls into the operating system and appear
    only as whether they succeed. */
module Privileges {
  import opened Results

  datatype IdError =
    | BothIdsRequired  // "Both uid and gid must be set"
    | UserIdMissing    // "Running as root, but user id is not set"

  datatype Privilege = Unchanged | DropTo(uid: nat, gid: nat) | Rejected(reason: IdError)

  /** Why a front-end stops before running its command. */
  datatype StepFailure = Denied(reason: IdError) | DropFailed

  /** Only a root process not told that root is fine changes anything: it
      needs both ids, and is refused with either or both missing. */
  function PrivilegeStep(rootIsOk: bool, isRoot: bool, uid: Option<nat>, gid: Option<nat>): (p: Privilege)
    ensures p.Unchanged? <==> rootIsOk || !isRoot
    ensures p.DropTo? <==> !rootIsOk && isRoot && uid.Some? && gid.Some?
    ensures p.DropTo? ==> p.uid == uid.value && p.gid == gid.value
    ensures p == Rejected(BothIdsRequired) <==> !rootIsOk && isRoot && uid.Some? != gid.Some?
    ensures p == Rejected(UserIdMissing) <==> !rootIsOk && isRoot && uid.None? && gid.None?
  {
    if rootIsOk || !isRoot then Unchanged
    else match (uid, gid)
      case (Some(u), Some(g)) => DropTo(u, g)
      case (None, None) => Rejected(UserIdMissing)
      case _ => Rejected(BothIdsRequired)
  }

  /** The privilege step as both front-ends take it: `None` lets the command
      run, otherwise the reason the program stops first. */
  function Gate(rootIsOk: bool, isRoot: bool, uid: Option<nat>, gid: Option<nat>, dropSucceeds: bool): (g: Option<StepFailure>)
    ensures var p := PrivilegeStep(rootIsOk, isRoot, uid, gid);
            && (g.None? <==> p.Unchanged? || (p.DropTo? && dropSucceeds))
            && (g == Some(DropFailed) <==> p.DropTo? && !dropSucceeds)
            && (p.Rejected? <==> g.Some? && g.value.Denied?)
            && (p.Rejected? ==> g == Some(Denied(p.reason)))
  {
    match PrivilegeStep(rootIsOk, isRoot, uid, gid)
    case Rejected(reason) => Some(Denied(reason))
    case DropTo(_, _) => if dropSucceeds then None else Some(DropFailed)
    case Unchanged => None
  }
}
