/**
  Merkle reconciliation: the contract folds a proof into a root and compares it with the
  submitted one. The hash stays uninterpreted, a function from byte strings to digests, so
  soundness is shown by producing two byte strings with the same digest.
 */
module Reconciliation {
  import opened Prelude

  type Bytes = seq<bv8>
  type Digest = b: Bytes | |b| == 32 witness seq(32, _ => 0)
  type Hash = Bytes -> Digest

  datatype ProofNode = ProofNode(sibling: Digest, isLeft: bool)
  datatype Batch = Batch(root: Digest, submittedAt: nat, submittedLedger: u32)
  datatype Panic = NotAdmin | NoBatch

  function HashLeaf(h: Hash, id: Digest): Digest {
    h(id)
  }

  function HashPair(h: Hash, left: Digest, right: Digest): Digest {
    h(left + right)
  }

  function Climb(h: Hash, current: Digest, node: ProofNode): Digest {
    if node.isLeft then HashPair(h, node.sibling, current) else HashPair(h, current, node.sibling)
  }

  /** The root that a proof, read from the leaf upwards, leads to. */
  function RootFrom(h: Hash, id: Digest, proof: seq<ProofNode>): Digest {
    if proof == [] then HashLeaf(h, id)
    else Climb(h, RootFrom(h, id, proof[..|proof| - 1]), proof[|proof| - 1])
  }

  class Contract {
    const admin: nat
    const sha256: Hash
    var currentBatch: Option<Batch>

    constructor (admin: nat, sha256: Hash)
      ensures this.admin == admin && this.sha256 == sha256 && currentBatch == None
    {
      this.admin := admin;
      this.sha256 := sha256;
      currentBatch := None;
    }

    method SubmitMerkleRoot(caller: nat, root: Digest, timestamp: nat, ledger: u32) returns (r: Outcome<Panic>)
      modifies this
      ensures caller == admin ==> r == Pass && currentBatch == Some(Batch(root, timestamp, ledger))
      ensures caller != admin ==> r == Fail(NotAdmin) && currentBatch == old(currentBatch)
    {
      if caller != admin { return Fail(NotAdmin); }
      currentBatch := Some(Batch(root, timestamp, ledger));
      return Pass;
    }

    /** `Ok(true)` reports a mismatch, `Ok(false)` a valid proof. */
    method VerifySettlement(id: Digest, proof: seq<ProofNode>) returns (r: Result<bool, Panic>)
      ensures currentBatch.None? ==> r == Err(NoBatch)
      ensures currentBatch.Some? ==> r == Ok(RootFrom(sha256, id, proof) != currentBatch.value.root)
    {
      if currentBatch.None? { return Err(NoBatch); }
      var batch := currentBatch.value;
      var current := HashLeaf(sha256, id);
      for i := 0 to |proof|
        invariant current == RootFrom(sha256, id, proof[..i])
      {
        var node := proof[i];
        assert proof[..i + 1][..i] == proof[..i];
        current := if node.isLeft
                   then HashPair(sha256, node.sibling, current)
                   else HashPair(sha256, current, node.sibling);
      }
      assert proof[..|proof|] == proof;
      return Ok(current != batch.root);
    }
  }

  // ----- trees -----

  datatype Tree = Leaf(id: Digest) | Node(left: Tree, right: Tree)

  function Root(h: Hash, t: Tree): Digest {
    match t
    case Leaf(id) => HashLeaf(h, id)
    case Node(l, r) => HashPair(h, Root(h, l), Root(h, r))
  }

  /** `proof` is the authentication path of a leaf of `t` that holds `id`: its last node is the root's step. */
  predicate Authenticates(h: Hash, t: Tree, id: Digest, proof: seq<ProofNode>)
    decreases |proof|
  {
    if proof == [] then t == Leaf(id)
    else
      && t.Node?
      && var last, rest := proof[|proof| - 1], proof[..|proof| - 1];
      if last.isLeft
      then last.sibling == Root(h, t.left) && Authenticates(h, t.right, id, rest)
      else last.sibling == Root(h, t.right) && Authenticates(h, t.left, id, rest)
  }

  predicate HasLeaf(t: Tree, id: Digest) {
    match t
    case Leaf(x) => x == id
    case Node(l, r) => HasLeaf(l, id) || HasLeaf(r, id)
  }

  /** A path for every leaf: the proof a backend would send. */
  function PathTo(h: Hash, t: Tree, id: Digest): seq<ProofNode>
    requires HasLeaf(t, id)
  {
    match t
    case Leaf(_) => []
    case Node(l, r) =>
      if HasLeaf(l, id)
      then PathTo(h, l, id) + [ProofNode(Root(h, r), false)]
      else PathTo(h, r, id) + [ProofNode(Root(h, l), true)]
  }

  lemma {:induction false} PathAuthenticates(h: Hash, t: Tree, id: Digest)
    requires HasLeaf(t, id)
    ensures Authenticates(h, t, id, PathTo(h, t, id))
  {
    if t.Node? {
      var path := PathTo(h, t, id);
      if HasLeaf(t.left, id) {
        PathAuthenticates(h, t.left, id);
        assert path[..|path| - 1] == PathTo(h, t.left, id);
      } else {
        PathAuthenticates(h, t.right, id);
        assert path[..|path| - 1] == PathTo(h, t.right, id);
      }
    }
  }

  /** Completeness: every authentication path of the submitted tree is accepted, and only leaves have one. */
  lemma {:induction false} GenuinePathAccepted(h: Hash, t: Tree, id: Digest, proof: seq<ProofNode>)
    requires Authenticates(h, t, id, proof)
    ensures RootFrom(h, id, proof) == Root(h, t)
    ensures HasLeaf(t, id)
    decreases |proof|
  {
    if proof != [] {
      var last, rest := proof[|proof| - 1], proof[..|proof| - 1];
      GenuinePathAccepted(h, if last.isLeft then t.right else t.left, id, rest);
    }
  }

  // ----- collisions -----

  predicate Collision(h: Hash, pair: (Bytes, Bytes)) {
    pair.0 != pair.1 && h(pair.0) == h(pair.1)
  }

  /** The byte string whose digest is the root of `t`. */
  function Preimage(h: Hash, t: Tree): Bytes {
    match t
    case Leaf(id) => id
    case Node(l, r) => Root(h, l) + Root(h, r)
  }

  /** The byte string whose digest is where the proof ends. */
  function ProofPreimage(h: Hash, id: Digest, proof: seq<ProofNode>): Bytes {
    if proof == [] then id
    else
      var last, below := proof[|proof| - 1], RootFrom(h, id, proof[..|proof| - 1]);
      if last.isLeft then last.sibling + below else below + last.sibling
  }

  /** Walks the tree against the proof from the root down to the first place where they disagree. */
  function Disagreement(h: Hash, t: Tree, id: Digest, proof: seq<ProofNode>): (Bytes, Bytes)
    decreases |proof|
  {
    if proof == [] || t.Leaf? || ProofPreimage(h, id, proof) != Preimage(h, t)
    then (ProofPreimage(h, id, proof), Preimage(h, t))
    else
      var last, rest := proof[|proof| - 1], proof[..|proof| - 1];
      Disagreement(h, if last.isLeft then t.right else t.left, id, rest)
  }

  lemma HalvesEqual(a: Digest, b: Digest, x: Digest, y: Digest)
    requires a + b == x + y
    ensures a == x && b == y
  {
    assert a == (a + b)[..32] && x == (x + y)[..32];
    assert b == (a + b)[32..] && y == (x + y)[32..];
  }

  /** Soundness: an accepted proof is a genuine path, or the walk yields two byte strings with one digest. */
  lemma {:induction false} AcceptedIsGenuineOrCollision(h: Hash, t: Tree, id: Digest, proof: seq<ProofNode>)
    requires RootFrom(h, id, proof) == Root(h, t)
    ensures Authenticates(h, t, id, proof) || Collision(h, Disagreement(h, t, id, proof))
    decreases |proof|
  {
    if proof != [] && t.Node? && ProofPreimage(h, id, proof) == Preimage(h, t) {
      var last, rest := proof[|proof| - 1], proof[..|proof| - 1];
      var below := RootFrom(h, id, rest);
      if last.isLeft {
        HalvesEqual(last.sibling, below, Root(h, t.left), Root(h, t.right));
        AcceptedIsGenuineOrCollision(h, t.right, id, rest);
      } else {
        HalvesEqual(below, last.sibling, Root(h, t.left), Root(h, t.right));
        AcceptedIsGenuineOrCollision(h, t.left, id, rest);
      }
    }
  }

  /** In particular a payment that is not in the submitted tree is only ever accepted on a collision. */
  lemma StrangerNeedsCollision(h: Hash, t: Tree, id: Digest, proof: seq<ProofNode>)
    requires !HasLeaf(t, id)
    requires RootFrom(h, id, proof) == Root(h, t)
    ensures Collision(h, Disagreement(h, t, id, proof))
  {
    AcceptedIsGenuineOrCollision(h, t, id, proof);
    if Authenticates(h, t, id, proof) {
      GenuinePathAccepted(h, t, id, proof);
    }
  }

  /** Where two trees with one root first differ. */
  function TreeDisagreement(h: Hash, t: Tree, u: Tree): (Bytes, Bytes) {
    if Preimage(h, t) != Preimage(h, u) || t.Leaf? || u.Leaf? then (Preimage(h, t), Preimage(h, u))
    else if t.left != u.left then TreeDisagreement(h, t.left, u.left)
    else TreeDisagreement(h, t.right, u.right)
  }

  /** A root commits to its whole tree: two different trees behind one root yield a collision. */
  lemma {:induction false} RootCommits(h: Hash, t: Tree, u: Tree)
    requires t != u && Root(h, t) == Root(h, u)
    ensures Collision(h, TreeDisagreement(h, t, u))
  {
    if Preimage(h, t) == Preimage(h, u) && t.Node? && u.Node? {
      HalvesEqual(Root(h, t.left), Root(h, t.right), Root(h, u.left), Root(h, u.right));
      if t.left != u.left {
        RootCommits(h, t.left, u.left);
      } else {
        RootCommits(h, t.right, u.right);
      }
    }
  }
}
