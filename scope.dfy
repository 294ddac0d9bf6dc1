/**
 * The five authentication scopes (permissions) and the single-bit mask each one is
 * stored as in a 32-bit Java int.
 */
module Scopes {

  datatype Scope = SuperAdmin | EventRead | EventWrite | CommunityRead | CommunityWrite

  /** Scope.values(), in declaration order. */
  const AllScopes: seq<Scope> := [SuperAdmin, EventRead, EventWrite, CommunityRead, CommunityWrite]

  /** Position of a scope in declaration order (Java's ordinal()). */
  function Ordinal(s: Scope): (k: nat)
    ensures k < |AllScopes| && AllScopes[k] == s
  {
    match s
    case SuperAdmin => 0
    case EventRead => 1
    case EventWrite => 2
    case CommunityRead => 3
    case CommunityWrite => 4
  }

  /**
   * Scope.getBitmask: the value the enum constant was constructed with
   * (1, 1 << 1, 1 << 2, 1 << 3 and 1 << 4; see MaskIsOrdinalBit).
   */
  function Bitmask(s: Scope): bv32 {
    match s
    case SuperAdmin => 1
    case EventRead => 2
    case EventWrite => 4
    case CommunityRead => 8
    case CommunityWrite => 16
  }

  /** Each mask is the bit at the scope's ordinal position. */
  lemma MaskIsOrdinalBit(s: Scope)
    ensures Bitmask(s) == (1 as bv32) << Ordinal(s)
  {
    match s
    case SuperAdmin =>
    case EventRead =>
    case EventWrite =>
    case CommunityRead =>
    case CommunityWrite =>
  }

  /** The masks are exactly 1, 2, 4, 8 and 16. */
  lemma MaskValues()
    ensures Bitmask(SuperAdmin) == 1 && Bitmask(EventRead) == 2 && Bitmask(EventWrite) == 4
    ensures Bitmask(CommunityRead) == 8 && Bitmask(CommunityWrite) == 16
  {
  }

  /** Every mask has exactly one bit set. */
  lemma SingleBit(s: Scope)
    ensures Bitmask(s) != 0 && Bitmask(s) & (Bitmask(s) - 1) == 0
  {
  }

  /** Masks of distinct scopes share no bit, so a mask identifies its scope. */
  lemma Disjoint(s: Scope, t: Scope)
    ensures s != t <==> Bitmask(s) & Bitmask(t) == 0
  {
  }

  /** Together the five masks cover exactly the low five bits. */
  lemma AllMasks()
    ensures Bitmask(SuperAdmin) | Bitmask(EventRead) | Bitmask(EventWrite)
            | Bitmask(CommunityRead) | Bitmask(CommunityWrite) == 31
  {
  }
}
