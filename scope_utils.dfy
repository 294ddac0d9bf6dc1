/**
 * Encoding sets of scopes as a 32-bit bitmask and decoding them again.
 */
module ScopeUtils {

  import opened Scopes

  function Elements(scopes: seq<Scope>): set<Scope> {
    set s | s in scopes
  }

  /** `k` when `b` holds, no bit otherwise. */
  function Bit(b: bool, k: bv32): bv32 {
    if b then k else 0
  }

  /** The five scope bits, one flag per scope in declaration order. */
  function Bits5(b0: bool, b1: bool, b2: bool, b3: bool, b4: bool): bv32 {
    Bit(b0, 1) | Bit(b1, 2) | Bit(b2, 4) | Bit(b3, 8) | Bit(b4, 16)
  }

  /** The mask that has exactly the bits of the scopes in `S`. */
  function MaskOf(S: set<Scope>): bv32 {
    Bits5(SuperAdmin in S, EventRead in S, EventWrite in S, CommunityRead in S, CommunityWrite in S)
  }

  /** hasScope: the scope's bit is set in the combined value. */
  predicate HasScope(combined: bv32, scope: Scope) {
    combined & Bitmask(scope) != 0
  }

  /** The set of scopes whose bit is set in `combined` (deconstructScopes, as a value). */
  function ScopesIn(combined: bv32): (r: set<Scope>)
    ensures forall s :: s in r <==> HasScope(combined, s)
  {
    set s | s in Elements(AllScopes) && HasScope(combined, s)
  }

  lemma OrBits(a0: bool, a1: bool, a2: bool, a3: bool, a4: bool,
               b0: bool, b1: bool, b2: bool, b3: bool, b4: bool)
    ensures Bits5(a0, a1, a2, a3, a4) | Bits5(b0, b1, b2, b3, b4)
         == Bits5(a0 || b0, a1 || b1, a2 || b2, a3 || b3, a4 || b4)
  {
  }

  /** A scope's mask is the mask of the one-element set. */
  lemma MaskOfSingleton(x: Scope)
    ensures MaskOf({x}) == Bitmask(x)
  {
    match x
    case SuperAdmin =>
    case EventRead =>
    case EventWrite =>
    case CommunityRead =>
    case CommunityWrite =>
  }

  /** Adding a scope to the set ORs its mask into the combined value. */
  lemma MaskOfAdd(S: set<Scope>, x: Scope)
    ensures MaskOf(S + {x}) == MaskOf(S) | Bitmask(x)
  {
    MaskOfSingleton(x);
    OrBits(SuperAdmin in S, EventRead in S, EventWrite in S, CommunityRead in S, CommunityWrite in S,
           SuperAdmin == x, EventRead == x, EventWrite == x, CommunityRead == x, CommunityWrite == x);
  }

  /**
   * combineScopes: OR of the masks of all arguments. The result depends only on which
   * scopes occur, so neither argument order nor repeats change it; no scopes give 0.
   */
  method CombineScopes(scopes: seq<Scope>) returns (combined: bv32)
    ensures combined == MaskOf(Elements(scopes))
  {
    combined := 0;
    for i := 0 to |scopes|
      invariant combined == MaskOf(Elements(scopes[..i]))
    {
      assert Elements(scopes[..i + 1]) == Elements(scopes[..i]) + {scopes[i]} by {
        assert scopes[..i + 1] == scopes[..i] + [scopes[i]];
      }
      MaskOfAdd(Elements(scopes[..i]), scopes[i]);
      combined := combined | Bitmask(scopes[i]);
    }
    assert scopes[..|scopes|] == scopes;
  }

  /** Combining no scopes gives 0. */
  lemma CombineNone()
    ensures MaskOf(Elements([])) == 0
  {
  }

  /** A combined value has `s` iff `s` was one of the combined scopes. */
  lemma HasScopeOfMask(S: set<Scope>, s: Scope)
    ensures HasScope(MaskOf(S), s) <==> s in S
  {
    match s
    case SuperAdmin =>
    case EventRead =>
    case EventWrite =>
    case CommunityRead =>
    case CommunityWrite =>
  }

  /** removeScope: clears the bit of `scope` and keeps every other bit of `combined`. */
  function RemoveScope(combined: bv32, scope: Scope): (r: bv32)
    ensures r & Bitmask(scope) == 0
    ensures r | (combined & Bitmask(scope)) == combined
  {
    combined & !Bitmask(scope)
  }

  /** After removeScope, `t` is present iff it was present before and is not the removed scope. */
  lemma RemoveKeepsOthers(combined: bv32, scope: Scope, t: Scope)
    ensures HasScope(RemoveScope(combined, scope), t) <==> t != scope && HasScope(combined, t)
  {
    match t
    case SuperAdmin =>
    case EventRead =>
    case EventWrite =>
    case CommunityRead =>
    case CommunityWrite =>
  }

  /** Decoding after removeScope gives the decoded set without the removed scope. */
  lemma ScopesInRemove(combined: bv32, scope: Scope)
    ensures ScopesIn(RemoveScope(combined, scope)) == ScopesIn(combined) - {scope}
  {
    var before, after := ScopesIn(combined), ScopesIn(RemoveScope(combined, scope));
    forall t ensures t in after <==> t in before - {scope} {
      RemoveKeepsOthers(combined, scope, t);
    }
    assert after == before - {scope};
  }

  /** Removing twice is removing once. */
  lemma RemoveIdempotent(combined: bv32, scope: Scope)
    ensures RemoveScope(RemoveScope(combined, scope), scope) == RemoveScope(combined, scope)
  {
    match scope
    case SuperAdmin =>
    case EventRead =>
    case EventWrite =>
    case CommunityRead =>
    case CommunityWrite =>
  }

  /** Removing a scope from a combined value is removing it from the set of scopes. */
  lemma RemoveOfMask(S: set<Scope>, s: Scope)
    ensures RemoveScope(MaskOf(S), s) == MaskOf(S - {s})
  {
    var a0, a1, a2, a3, a4 := SuperAdmin in S, EventRead in S, EventWrite in S, CommunityRead in S, CommunityWrite in S;
    match s
    case SuperAdmin => assert Bits5(a0, a1, a2, a3, a4) & !1 == Bits5(false, a1, a2, a3, a4);
    case EventRead => assert Bits5(a0, a1, a2, a3, a4) & !2 == Bits5(a0, false, a2, a3, a4);
    case EventWrite => assert Bits5(a0, a1, a2, a3, a4) & !4 == Bits5(a0, a1, false, a3, a4);
    case CommunityRead => assert Bits5(a0, a1, a2, a3, a4) & !8 == Bits5(a0, a1, a2, false, a4);
    case CommunityWrite => assert Bits5(a0, a1, a2, a3, a4) & !16 == Bits5(a0, a1, a2, a3, false);
  }

  /** deconstructScopes: the set of scopes present in `combined`. */
  method DeconstructScopes(combined: bv32) returns (scopes: set<Scope>)
    ensures scopes == ScopesIn(combined)
  {
    scopes := {};
    for i := 0 to |AllScopes|
      invariant scopes == set s | s in Elements(AllScopes[..i]) && HasScope(combined, s)
    {
      assert AllScopes[..i + 1] == AllScopes[..i] + [AllScopes[i]];
      if HasScope(combined, AllScopes[i]) {
        scopes := scopes + {AllScopes[i]};
      }
    }
    assert AllScopes[..|AllScopes|] == AllScopes;
  }

  /** Round trip: decoding the combination of a set of scopes gives that set back. */
  lemma DeconstructCombine(S: set<Scope>)
    ensures ScopesIn(MaskOf(S)) == S
  {
    forall s ensures s in ScopesIn(MaskOf(S)) <==> s in S {
      HasScopeOfMask(S, s);
    }
  }

  lemma LowBits(c: bv32)
    ensures Bits5(c & 1 != 0, c & 2 != 0, c & 4 != 0, c & 8 != 0, c & 16 != 0) == c & 31
  {
  }

  /** The other direction: re-combining the decoded scopes keeps exactly the five scope bits. */
  lemma CombineDeconstruct(combined: bv32)
    ensures MaskOf(ScopesIn(combined)) == combined & 31
  {
    var S := ScopesIn(combined);
    assert SuperAdmin in S <==> combined & 1 != 0;
    assert EventRead in S <==> combined & 2 != 0;
    assert EventWrite in S <==> combined & 4 != 0;
    assert CommunityRead in S <==> combined & 8 != 0;
    assert CommunityWrite in S <==> combined & 16 != 0;
    LowBits(combined);
  }

  lemma SubsetBits5(a0: bool, a1: bool, a2: bool, a3: bool, a4: bool, c: bv32)
    ensures Bits5(a0, a1, a2, a3, a4) & c == Bits5(a0, a1, a2, a3, a4)
        <==> (a0 ==> c & 1 != 0) && (a1 ==> c & 2 != 0) && (a2 ==> c & 4 != 0)
             && (a3 ==> c & 8 != 0) && (a4 ==> c & 16 != 0)
  {
  }

  /** A set of scopes is contained in the decoding of `c` iff all of its bits are set in `c`. */
  lemma MaskSubset(S: set<Scope>, c: bv32)
    ensures S <= ScopesIn(c) <==> MaskOf(S) & c == MaskOf(S)
  {
    SubsetBits5(SuperAdmin in S, EventRead in S, EventWrite in S, CommunityRead in S, CommunityWrite in S, c);
    if !(S <= ScopesIn(c)) {
      var x :| x in S && x !in ScopesIn(c);
      match x
      case SuperAdmin =>
      case EventRead =>
      case EventWrite =>
      case CommunityRead =>
      case CommunityWrite =>
    }
  }
}
