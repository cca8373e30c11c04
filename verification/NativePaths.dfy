/** Claims on native project paths: one writer per tree, or readers only. */
module NativePaths {
  import opened Prelude

  /** A path is its sequence of components below the file-system root. */
  type Path = seq<string>

  /** `canonical` is whether both recorded paths are absolute and within length, without `.` or `..`. */
  datatype Root = Root(physical: Path, identity: string, write: bool, canonical: bool)

  datatype Claim = Claim(owner: string, roots: seq<Root>)

  datatype Error = InvalidClaim | ImmutableConflict | CapacityFull | Overlap

  const MAX_CLAIMS: nat := 4096

  predicate ClaimValid(key: string, claim: Claim) {
    && key == claim.owner && 0 < |claim.owner| <= 512 && NoControls(claim.owner)
    && 0 < |claim.roots| <= 32
    && (forall i :: 0 <= i < |claim.roots| ==> claim.roots[i].canonical && 0 < |claim.roots[i].identity| <= 512)
  }

  /** Two roots exclude each other when one writes and they are the same file or nested. */
  predicate Excludes(a: Root, b: Root) {
    (a.write || b.write) && (a.identity == b.identity || b.physical <= a.physical || a.physical <= b.physical)
  }

  /** In other words, one writes and they are the same file or some path lies at or below both. */
  lemma ExcludesExactly(a: Root, b: Root)
    ensures Excludes(a, b) <==>
              (a.write || b.write) && (a.identity == b.identity || exists path :: Above(a, path) && Above(b, path))
  {
    if path :| Above(a, path) && Above(b, path) {
      PrefixesNest(a.physical, b.physical, path);
    }
    assert a.physical <= b.physical ==> Above(a, b.physical) && Above(b, b.physical);
    assert b.physical <= a.physical ==> Above(a, a.physical) && Above(b, a.physical);
  }

  predicate Above(root: Root, path: Path) { root.physical <= path }

  predicate Overlaps(a: Claim, b: Claim) {
    exists i, j :: 0 <= i < |a.roots| && 0 <= j < |b.roots| && Excludes(a.roots[i], b.roots[j])
  }

  // ---- What claims guarantee ----

  ghost predicate Separate(claims: map<string, Claim>) {
    && |claims| <= MAX_CLAIMS
    && (forall o :: o in claims ==> ClaimValid(o, claims[o]))
    && (forall o, p :: o in claims && p in claims && o != p ==> !Overlaps(claims[o], claims[p]))
  }

  /** An owner holds a root at or above a path. */
  ghost predicate Holds(claims: map<string, Claim>, owner: string, path: Path, root: Root) {
    owner in claims && root in claims[owner].roots && Above(root, path)
  }

  /** Whoever may write at a path is the only one who may be there at all. */
  lemma WriterIsAlone(claims: map<string, Claim>, path: Path, writer: string, other: string, w: Root, r: Root)
    requires Separate(claims) && Holds(claims, writer, path, w) && Holds(claims, other, path, r) && w.write
    ensures writer == other
  {
    if writer != other {
      PrefixesNest(w.physical, r.physical, path);
      var i :| 0 <= i < |claims[writer].roots| && claims[writer].roots[i] == w;
      var j :| 0 <= j < |claims[other].roots| && claims[other].roots[j] == r;
      assert Excludes(claims[writer].roots[i], claims[other].roots[j]);
      assert Overlaps(claims[writer], claims[other]);
      assert false;
    }
  }

  lemma PrefixesNest(a: Path, b: Path, path: Path)
    requires a <= path && b <= path
    ensures a <= b || b <= a
  {
  }

  /** Distinct owners share a root identity only to read. */
  lemma SharedIdentityReads(claims: map<string, Claim>, a: string, b: string, i: nat, j: nat)
    requires Separate(claims) && a in claims && b in claims && a != b
    requires i < |claims[a].roots| && j < |claims[b].roots|
    requires claims[a].roots[i].identity == claims[b].roots[j].identity
    ensures !claims[a].roots[i].write && !claims[b].roots[j].write
  {
    assert !Overlaps(claims[a], claims[b]);
    assert !Excludes(claims[a].roots[i], claims[b].roots[j]);
  }

  lemma OverlapsBothWays(a: Claim, b: Claim)
    requires Overlaps(a, b)
    ensures Overlaps(b, a)
  {
    var i, j :| 0 <= i < |a.roots| && 0 <= j < |b.roots| && Excludes(a.roots[i], b.roots[j]);
    assert Excludes(b.roots[j], a.roots[i]);
  }

  datatype Op = Take(claim: Claim) | Release(owner: string)

  class PathClaims {
    var claims: map<string, Claim>

    constructor ()
      ensures claims == map[] && Separate(claims)
    {
      claims := map[];
    }

    /** Claims the roots of an owner, all or none. */
    method ClaimPaths(claim: Claim) returns (result: Result<(), Error>)
      requires Separate(claims)
      modifies this
      ensures Separate(claims)
      ensures result.Err? ==> claims == old(claims)
      ensures result.Ok? ==> claims == old(claims)[claim.owner := claim]
      ensures result.Ok? <==>
                && ClaimValid(claim.owner, claim)
                && if claim.owner in old(claims) then old(claims)[claim.owner] == claim
                   else |old(claims)| < MAX_CLAIMS && forall o :: o in old(claims) ==> !Overlaps(claim, old(claims)[o])
      ensures result == Err(Overlap) ==> exists o :: o in old(claims) && o != claim.owner && Overlaps(claim, old(claims)[o])
    {
      hide ClaimValid, Overlaps;
      if !ClaimValid(claim.owner, claim) { return Err(InvalidClaim); }
      if claim.owner in claims {
        if claims[claim.owner] != claim { return Err(ImmutableConflict); }
        assert claims == claims[claim.owner := claim];
        return Ok(());
      }
      if |claims| >= MAX_CLAIMS { return Err(CapacityFull); }
      var rest := claims.Keys;
      while rest != {}
        invariant rest <= claims.Keys && claims == old(claims)
        invariant forall o :: o in claims && o !in rest ==> !Overlaps(claim, claims[o])
        decreases |rest|
      {
        var o :| o in rest;
        if !ClaimValid(o, claims[o]) { assert false; }
        if Overlaps(claim, claims[o]) { return Err(Overlap); }
        rest := rest - {o};
      }
      AddKeepsSeparate(claims, claim);
      claims := claims[claim.owner := claim];
      return Ok(());
    }

    /** Releases the roots of an owner. */
    method ReleasePaths(owner: string)
      requires Separate(claims)
      modifies this
      ensures Separate(claims) && claims == old(claims) - {owner}
    {
      hide ClaimValid, Overlaps;
      RemovalShrinks(claims, owner);
      claims := claims - {owner};
    }

    /** After any sequence of claims and releases the claims held are apart, at most 4096 of them, and
        an owner that released nothing still holds what it held. */
    method Run(ops: seq<Op>)
      requires Separate(claims)
      modifies this
      ensures Separate(claims)
      ensures forall o :: o in old(claims) && Release(o) !in ops ==> o in claims && claims[o] == old(claims)[o]
    {
      hide Separate, ClaimValid, Overlaps;
      for i := 0 to |ops|
        invariant Separate(claims)
        invariant forall o :: o in old(claims) && Release(o) !in ops[..i] ==> o in claims && claims[o] == old(claims)[o]
      {
        assert ops[..i + 1] == ops[..i] + [ops[i]];
        match ops[i] {
          case Take(claim) => var _ := ClaimPaths(claim);
          case Release(owner) => ReleasePaths(owner);
        }
      }
      assert ops[..|ops|] == ops;
    }
  }

  lemma AddKeepsSeparate(claims: map<string, Claim>, claim: Claim)
    requires Separate(claims) && |claims| < MAX_CLAIMS && claim.owner !in claims && ClaimValid(claim.owner, claim)
    requires forall o :: o in claims ==> !Overlaps(claim, claims[o])
    ensures Separate(claims[claim.owner := claim])
  {
    hide ClaimValid, Overlaps;
    assert claims[claim.owner := claim].Keys == claims.Keys + {claim.owner};
    forall o | o in claims
      ensures !Overlaps(claims[o], claim)
    {
      if Overlaps(claims[o], claim) {
        OverlapsBothWays(claims[o], claim);
      }
    }
  }

  lemma RemovalShrinks(claims: map<string, Claim>, owner: string)
    ensures |claims - {owner}| <= |claims|
  {
    assert claims.Keys == (claims - {owner}).Keys + (if owner in claims then {owner} else {});
  }
}
