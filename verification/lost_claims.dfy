/**
 * Mandatory claims that a resolved hunt leaves UNPROVEN: exactly those to which no edge reports back. A plan
 * passes every check with two ids that derive the same key, or with an id that is padded with white space.
 */
module LostClaims {
  import opened Text
  import opened CaseGraphs
  import opened CaseBuilder
  import opened ClaimLoop
  import opened ClaimSoundness
  import opened ClaimCompleteness
  import Claims
  import S = Stopping

  /** A plan without claim references is ready as it is compiled, colliding keys included. */
  lemma UnreferencedIsReady(set_: Setting, claims: seq<Claims.Claim>, s: State)
    requires IsFreshStart(claims, s) && claims != [] && IsUnblocked(set_, s) && HasRoom(s.ledger, |s.graph.edges|)
    requires BindsEverything(set_.binder, s.graph) && forall i :: 0 <= i < |claims| ==> Drafts(claims)[i].reference == None
    ensures IsReady(set_, claims, s)
  {
    DraftsAreWellNamed(claims);
    UnreferencedNeverStuck(Drafts(claims), s.graph);
  }

  /**
   * For every ready plan and every mandatory claim that no edge reports back to: some legal run ends
   * STOP_RESOLVED, and that run, like every other one that does, leaves the claim UNPROVEN.
   */
  lemma UnownedClaimStaysUnproven(set_: Setting, claims: seq<Claims.Claim>, s: State, i: nat) returns (moves: seq<Move>)
    requires IsReady(set_, claims, s) && i < |claims| && !claims[i].optional && !IsOwned(Drafts(claims), i)
    ensures LegalMoves(set_, s, moves) && EndOf(set_, s, moves).decision == Some(S.StopResolved)
    ensures |EndOf(set_, s, moves).claims| == |claims| && EndOf(set_, s, moves).claims[i].status == Claims.Unproven
  {
    ReadyIsOnTrack(set_, claims, s);
    moves := AcceptedRunExists(set_, claims, s.graph, s);
    ResolvedStatusIs(set_, claims, s, moves, i);
  }

  /** Two trimmed ids with one derived key: the earlier claim is lost. */
  lemma CollidingClaimStaysUnproven(set_: Setting, claims: seq<Claims.Claim>, s: State, i: nat, j: nat) returns (moves: seq<Move>)
    requires IsReady(set_, claims, s) && forall c :: c in claims ==> Trimmed(c.id)
    requires i < j < |claims| && !claims[i].optional && SafeId(claims[i].id) == SafeId(claims[j].id)
    ensures LegalMoves(set_, s, moves) && EndOf(set_, s, moves).decision == Some(S.StopResolved)
    ensures |EndOf(set_, s, moves).claims| == |claims| && EndOf(set_, s, moves).claims[i].status == Claims.Unproven
  {
    TrimmedOwnership(claims, i);
    assert Drafts(claims)[j].key == Drafts(claims)[i].key;
    moves := UnownedClaimStaysUnproven(set_, claims, s, i);
  }

  /** No edge reports back to an id with white space around it. */
  lemma PaddedIsUnowned(claims: seq<Claims.Claim>, i: nat)
    requires i < |claims| && !Trimmed(claims[i].id)
    ensures !IsOwned(Drafts(claims), i)
  {
    forall j | 0 <= j < |claims| ensures Strip(Drafts(claims)[j].id) != claims[i].id {
      StripIsTrimmed(claims[j].id);
    }
  }

  /** A padded id, in a plan that was not parsed from text: the claim is lost. */
  lemma PaddedClaimStaysUnproven(set_: Setting, claims: seq<Claims.Claim>, s: State, i: nat) returns (moves: seq<Move>)
    requires IsReady(set_, claims, s) && i < |claims| && !Trimmed(claims[i].id) && !claims[i].optional
    ensures LegalMoves(set_, s, moves) && EndOf(set_, s, moves).decision == Some(S.StopResolved)
    ensures |EndOf(set_, s, moves).claims| == |claims| && EndOf(set_, s, moves).claims[i].status == Claims.Unproven
  {
    PaddedIsUnowned(claims, i);
    moves := UnownedClaimStaysUnproven(set_, claims, s, i);
  }
}
