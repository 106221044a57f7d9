/** Capacity bounds, from `packages/contracts/src/entitlements.ts`. */
module Limits {
  import opened Wrappers

  /** `EntitlementLimit`: none means unbounded. */
  type Limit = Option<nat>

  /** `withinLimit`. */
  predicate WithinLimit(limit: Limit, usage: int) { limit.None? || usage <= limit.value }
}
