/** The permission matrix (cognix/core/permissions.py). */
module Permissions {

  datatype Decision = Decision(allowed: bool, requiresApproval: bool)

  const MODES := {"read-only", "workspace-write", "ask", "plan", "unrestricted"}
  const LEVELS := {"read", "write", "dangerous"}

  function NormalizeMode(mode: string): string {
    if mode in MODES then mode else "workspace-write"
  }

  function NormalizeLevel(level: string): string {
    if level in LEVELS then level else "read"
  }

  function Decide(mode: string, level: string): Decision {
    var m, l := NormalizeMode(mode), NormalizeLevel(level);
    if m == "unrestricted" then Decision(true, false)
    else if m == "read-only" then Decision(l == "read", false)
    else if m == "ask" || m == "plan" then
      if l == "read" then Decision(true, false) else Decision(false, true)
    else if l == "dangerous" then Decision(false, true)
    else Decision(true, false)
  }

  /** Dangerous operations are for unrestricted agents, and writes for those that need not ask. Anything
      that is no write and not dangerous counts as a read, and any unknown mode as "workspace-write". */
  predicate IsPermitted(mode: string, level: string) {
    if level == "dangerous" then mode == "unrestricted"
    else if level == "write" then mode != "read-only" && mode != "ask" && mode != "plan"
    else true
  }

  /** What is not permitted needs an approval, but for read-only agents, which are refused outright. */
  predicate MustAsk(mode: string, level: string) {
    !IsPermitted(mode, level) && mode != "read-only"
  }

  lemma DecidesExactly(mode: string, level: string)
    ensures Decide(mode, level) == Decision(IsPermitted(mode, level), MustAsk(mode, level))
  {
    assert mode in MODES <==>
      mode == "read-only" || mode == "workspace-write" || mode == "ask" || mode == "plan" || mode == "unrestricted";
    assert level in LEVELS <==> level == "read" || level == "write" || level == "dangerous";
  }
}
