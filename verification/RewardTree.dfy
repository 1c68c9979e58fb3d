/**
 Merkle-sum reward claims.  Leaf and inner nodes hash four words of the same shape, so soundness
 rests on the sorted order of a pair: the third word of an inner preimage is the larger hash, and
 the third word of a leaf is an address.
 */
module RewardTree {

  type Hasher = (nat, nat, nat, nat) -> nat

  const UINT256: nat := 0x1_0000000000000000_0000000000000000_0000000000000000_0000000000000000
  const ADDRESSES: nat := 0x1_00000000_0000000000000000_0000000000000000

  datatype Result<T> = Ok(value: T) | Err(error: ProofError)
  datatype ProofError = OutOfRange | BadAddress | Malformed(index: nat)

  datatype Leaf = Leaf(epochId: nat, index: nat, account: nat, amount: nat)
  datatype ProofNode = ProofNode(nodeHash: nat, sum: nat)

  /** The hash is collision free and no hash value looks like an address. */
  ghost predicate Ideal(h: Hasher) {
    && (forall a: nat, b: nat, c: nat, d: nat :: h(a, b, c, d) >= ADDRESSES)
    && (forall a: nat, b: nat, c: nat, d: nat, w: nat, x: nat, y: nat, z: nat ::
          h(a, b, c, d) == h(w, x, y, z) ==> a == w && b == x && c == y && d == z)
  }

  predicate Encodable(leaf: Leaf) {
    leaf.epochId < UINT256 && leaf.index < UINT256 && leaf.account < ADDRESSES && leaf.amount < UINT256
  }

  /** `hashToriumRewardLeaf` with the starting sum of a proof. */
  function Start(h: Hasher, leaf: Leaf): Result<ProofNode> {
    if leaf.epochId >= UINT256 || leaf.index >= UINT256 then Err(OutOfRange)
    else if leaf.account >= ADDRESSES then Err(BadAddress)
    else if leaf.amount >= UINT256 then Err(OutOfRange)
    else Ok(LeafNode(h, leaf))
  }

  function LeafNode(h: Hasher, leaf: Leaf): ProofNode {
    ProofNode(h(leaf.epochId, leaf.index, leaf.account, leaf.amount), leaf.amount)
  }

  /** Two nodes under one parent, the smaller hash first. */
  function Combine(h: Hasher, first: ProofNode, second: ProofNode): ProofNode {
    var (left, right) := if first.nodeHash <= second.nodeHash then (first, second) else (second, first);
    ProofNode(h(left.nodeHash, left.sum, right.nodeHash, right.sum), first.sum + second.sum)
  }

  /** `hashToriumRewardNode`. */
  function HashNode(h: Hasher, first: ProofNode, second: ProofNode): Result<ProofNode> {
    if first.sum >= UINT256 || second.sum >= UINT256 || first.sum + second.sum >= UINT256 then Err(OutOfRange)
    else Ok(Combine(h, first, second))
  }

  /** The node a proof prefix commits to. */
  function Climb(h: Hasher, leaf: Leaf, proof: seq<ProofNode>): Result<ProofNode> {
    if proof == [] then Start(h, leaf) else
      var last := |proof| - 1;
      match Climb(h, leaf, proof[..last])
      case Err(e) => Err(e)
      case Ok(node) =>
        if proof[last].nodeHash == 0 || proof[last].sum == 0 then Err(Malformed(last))
        else HashNode(h, node, proof[last])
  }

  /** `processToriumRewardProof`. */
  method ProcessProof(h: Hasher, leaf: Leaf, proof: seq<ProofNode>) returns (r: Result<ProofNode>)
    ensures r == Climb(h, leaf, proof)
  {
    r := Start(h, leaf);
    var i := 0;
    while i < |proof| && r.Ok?
      invariant 0 <= i <= |proof|
      invariant r == Climb(h, leaf, proof[..i])
      decreases |proof| - i
    {
      var sibling := proof[i];
      assert proof[..i + 1][..i] == proof[..i];
      if sibling.nodeHash == 0 || sibling.sum == 0 {
        r := Err(Malformed(i));
      } else {
        r := HashNode(h, r.value, sibling);
      }
      i := i + 1;
    }
    if r.Err? {
      StaysFailed(h, leaf, proof, i);
    } else {
      assert proof[..i] == proof;
    }
  }

  lemma {:induction false} StaysFailed(h: Hasher, leaf: Leaf, proof: seq<ProofNode>, i: nat)
    requires i <= |proof| && Climb(h, leaf, proof[..i]).Err?
    ensures Climb(h, leaf, proof) == Climb(h, leaf, proof[..i])
    decreases |proof| - i
  {
    if i == |proof| {
      assert proof[..i] == proof;
    } else {
      assert proof[..i + 1][..i] == proof[..i];
      StaysFailed(h, leaf, proof, i + 1);
    }
  }

  // ---------------------------------------------------------------- shapes of preimages

  /** A successful nonempty climb: its last sibling was combined with the climb below it. */
  lemma LastStep(h: Hasher, leaf: Leaf, proof: seq<ProofNode>)
    requires proof != [] && Climb(h, leaf, proof).Ok?
    ensures var last := |proof| - 1;
            var below := Climb(h, leaf, proof[..last]);
            && below.Ok? && proof[last].nodeHash != 0 && proof[last].sum != 0
            && Climb(h, leaf, proof).value == Combine(h, below.value, proof[last])
            && below.value.sum + proof[last].sum < UINT256
  {
  }

  /** Every node a proof climbs to has a hash that the hash function gave. */
  lemma ClimbedHash(h: Hasher, leaf: Leaf, proof: seq<ProofNode>)
    requires Ideal(h) && Climb(h, leaf, proof).Ok?
    ensures Climb(h, leaf, proof).value.nodeHash >= ADDRESSES
  {
    if proof != [] {
      LastStep(h, leaf, proof);
    }
  }

  /** A leaf and a pair never share a hash. */
  lemma LeafIsNoPair(h: Hasher, leaf: Leaf, a: ProofNode, b: ProofNode)
    requires Ideal(h) && leaf.account < ADDRESSES && (a.nodeHash >= ADDRESSES || b.nodeHash >= ADDRESSES)
    ensures LeafNode(h, leaf).nodeHash != Combine(h, a, b).nodeHash
  {
  }

  /** What two pairs with one hash have in common. */
  lemma SamePair(h: Hasher, a: ProofNode, b: ProofNode, c: ProofNode, d: ProofNode)
    requires Ideal(h) && Combine(h, a, b).nodeHash == Combine(h, c, d).nodeHash
    ensures (a == c && b == d) || (a == d && b == c)
  {
  }

  // ---------------------------------------------------------------- claims against any root

  datatype Claim = Claim(leaf: Leaf, proof: seq<ProofNode>)

  predicate Accepted(h: Hasher, claim: Claim, root: nat, sum: nat) {
    Climb(h, claim.leaf, claim.proof) == Ok(ProofNode(root, sum))
  }

  predicate AllAccepted(h: Hasher, claims: seq<Claim>, root: nat, sum: nat) {
    forall i :: 0 <= i < |claims| ==> Accepted(h, claims[i], root, sum)
  }

  predicate DistinctLeaves(claims: seq<Claim>) {
    forall i, j :: 0 <= i < j < |claims| ==> claims[i].leaf != claims[j].leaf
  }

  function Total(claims: seq<Claim>): nat {
    if claims == [] then 0 else claims[0].leaf.amount + Total(claims[1..])
  }

  predicate Shorter(claims: seq<Claim>, n: nat) { forall i :: 0 <= i < |claims| ==> |claims[i].proof| <= n }

  predicate NonEmpty(claims: seq<Claim>) { forall i :: 0 <= i < |claims| ==> claims[i].proof != [] }

  /** A claim against the node below its last sibling. */
  function Below(claim: Claim): Claim
    requires claim.proof != []
  {
    claim.(proof := claim.proof[..|claim.proof| - 1])
  }

  /** The claims that arrive at their parent from the given child, each cut by one level. */
  function Through(h: Hasher, claims: seq<Claim>, child: ProofNode): seq<Claim>
    requires NonEmpty(claims)
  {
    if claims == [] then [] else
      var rest := Through(h, claims[1..], child);
      var below := Below(claims[0]);
      if Climb(h, below.leaf, below.proof) == Ok(child) then [below] + rest else rest
  }

  lemma {:induction false} ThroughFacts(h: Hasher, claims: seq<Claim>, child: ProofNode, n: nat)
    requires NonEmpty(claims) && DistinctLeaves(claims) && Shorter(claims, n + 1)
    ensures AllAccepted(h, Through(h, claims, child), child.nodeHash, child.sum)
    ensures Shorter(Through(h, claims, child), n)
    ensures DistinctLeaves(Through(h, claims, child))
  {
    hide Climb;
    if claims == [] {
    } else {
      ThroughFacts(h, claims[1..], child, n);
      var rest := Through(h, claims[1..], child);
      forall j | 0 <= j < |rest| ensures rest[j].leaf != claims[0].leaf {
        var i := ThroughComesFrom(h, claims[1..], child, j);
        assert claims[i + 1].leaf == rest[j].leaf;
      }
    }
  }

  /** Where a claim that passes through a child was before. */
  lemma {:induction false} ThroughComesFrom(h: Hasher, claims: seq<Claim>, child: ProofNode, j: nat) returns (i: nat)
    requires NonEmpty(claims) && j < |Through(h, claims, child)|
    ensures i < |claims| && claims[i].leaf == Through(h, claims, child)[j].leaf
  {
    hide Climb;
    var rest := Through(h, claims[1..], child);
    if Through(h, claims, child) == rest {
      i := ThroughComesFrom(h, claims[1..], child, j);
      i := i + 1;
    } else if j == 0 {
      i := 0;
    } else {
      i := ThroughComesFrom(h, claims[1..], child, j - 1);
      i := i + 1;
    }
  }

  /** Every claim arrives from one of the two children, so their totals cover the whole. */
  lemma {:induction false} TotalSplits(h: Hasher, claims: seq<Claim>, left: ProofNode, right: ProofNode)
    requires NonEmpty(claims)
    requires forall i :: 0 <= i < |claims| ==>
      Climb(h, Below(claims[i]).leaf, Below(claims[i]).proof) in {Ok(left), Ok(right)}
    ensures Total(claims) <= Total(Through(h, claims, left)) + Total(Through(h, claims, right))
  {
    if claims == [] {
    } else {
      var rest := claims[1..];
      forall i | 0 <= i < |rest| ensures Climb(h, Below(rest[i]).leaf, Below(rest[i]).proof) in {Ok(left), Ok(right)} {
        assert rest[i] == claims[i + 1];
      }
      TotalSplits(h, rest, left, right);
      var below := Below(claims[0]);
      TotalThrough(h, claims, left);
      TotalThrough(h, claims, right);
    }
  }

  lemma TotalThrough(h: Hasher, claims: seq<Claim>, child: ProofNode)
    requires claims != [] && NonEmpty(claims)
    ensures var below := Below(claims[0]);
            Total(Through(h, claims, child)) == Total(Through(h, claims[1..], child)) +
              (if Climb(h, below.leaf, below.proof) == Ok(child) then below.leaf.amount else 0)
  {
    var rest := Through(h, claims[1..], child);
    var below := Below(claims[0]);
    assert ([below] + rest)[1..] == rest;
  }

  /** All claims against one pair come from its two children. */
  lemma ChildrenOf(h: Hasher, claims: seq<Claim>, root: nat, sum: nat) returns (left: ProofNode, right: ProofNode)
    requires Ideal(h) && claims != [] && NonEmpty(claims) && AllAccepted(h, claims, root, sum)
    ensures left.sum + right.sum == sum
    ensures forall i :: 0 <= i < |claims| ==>
      Climb(h, Below(claims[i]).leaf, Below(claims[i]).proof) in {Ok(left), Ok(right)}
  {
    var c := claims[0];
    LastStep(h, c.leaf, c.proof);
    left, right := Climb(h, c.leaf, c.proof[..|c.proof| - 1]).value, c.proof[|c.proof| - 1];
    forall i | 0 <= i < |claims|
      ensures Climb(h, Below(claims[i]).leaf, Below(claims[i]).proof) in {Ok(left), Ok(right)}
    {
      var d := claims[i];
      LastStep(h, d.leaf, d.proof);
      SamePair(h, left, right, Climb(h, d.leaf, d.proof[..|d.proof| - 1]).value, d.proof[|d.proof| - 1]);
    }
  }

  /** Either every claim against a root has an empty proof, or none has. */
  lemma SameShape(h: Hasher, a: Claim, b: Claim, root: nat, sum: nat)
    requires Ideal(h) && Accepted(h, a, root, sum) && Accepted(h, b, root, sum) && a.proof == []
    ensures b.proof == [] && a.leaf == b.leaf
  {
    if b.proof != [] {
      LastStep(h, b.leaf, b.proof);
      var below := b.proof[..|b.proof| - 1];
      ClimbedHash(h, b.leaf, below);
      LeafIsNoPair(h, a.leaf, Climb(h, b.leaf, below).value, b.proof[|b.proof| - 1]);
    }
  }

  /**
   Claims accepted against one published root and sum total at most that sum, whoever published it:
   the root need not come from an honestly built tree.
   */
  lemma {:induction false} ClaimsStayWithinTheSum(h: Hasher, claims: seq<Claim>, root: nat, sum: nat, n: nat)
    requires Ideal(h) && AllAccepted(h, claims, root, sum) && DistinctLeaves(claims) && Shorter(claims, n)
    ensures Total(claims) <= sum
    decreases n
  {
    if claims == [] {
    } else if exists i :: 0 <= i < |claims| && claims[i].proof == [] {
      var i :| 0 <= i < |claims| && claims[i].proof == [];
      forall j | 0 <= j < |claims| ensures claims[i].leaf == claims[j].leaf {
        SameShape(h, claims[i], claims[j], root, sum);
      }
      assert claims[0].leaf == claims[|claims| - 1].leaf;
      assert claims[1..] == [];
    } else {
      assert NonEmpty(claims);
      var left, right := ChildrenOf(h, claims, root, sum);
      assert |claims[0].proof| <= n;
      ThroughFacts(h, claims, left, n - 1);
      ThroughFacts(h, claims, right, n - 1);
      ClaimsStayWithinTheSum(h, Through(h, claims, left), left.nodeHash, left.sum, n - 1);
      ClaimsStayWithinTheSum(h, Through(h, claims, right), right.nodeHash, right.sum, n - 1);
      TotalSplits(h, claims, left, right);
    }
  }

  // ---------------------------------------------------------------- claims against a tree

  datatype Tree = Tip(leaf: Leaf) | Pair(left: Tree, right: Tree)

  function Root(h: Hasher, t: Tree): ProofNode {
    match t
    case Tip(leaf) => LeafNode(h, leaf)
    case Pair(l, r) => Combine(h, Root(h, l), Root(h, r))
  }

  predicate Sound(t: Tree) {
    match t
    case Tip(leaf) => Encodable(leaf)
    case Pair(l, r) => Sound(l) && Sound(r)
  }

  /** A path from the root: `true` goes left. */
  predicate LeadsTo(t: Tree, path: seq<bool>, leaf: Leaf) {
    match t
    case Tip(own) => path == [] && own == leaf
    case Pair(l, r) => path != [] && LeadsTo(if path[0] then l else r, path[1..], leaf)
  }

  /** The siblings along a path, lowest first. */
  function Siblings(h: Hasher, t: Tree, path: seq<bool>): seq<ProofNode>
    decreases t
  {
    if t.Tip? || path == [] then [] else
      if path[0] then Siblings(h, t.left, path[1..]) + [Root(h, t.right)]
      else Siblings(h, t.right, path[1..]) + [Root(h, t.left)]
  }

  lemma RootHash(h: Hasher, t: Tree)
    requires Ideal(h)
    ensures Root(h, t).nodeHash >= ADDRESSES
  {
  }

  /** Subtrees with one hash hold one sum, so the order of a pair never matters in a tree. */
  lemma {:induction false} HashFixesSum(h: Hasher, t: Tree, u: Tree)
    requires Ideal(h) && Sound(t) && Sound(u) && Root(h, t).nodeHash == Root(h, u).nodeHash
    ensures Root(h, t) == Root(h, u)
  {
    match (t, u)
    case (Tip(a), Tip(b)) =>
    case (Tip(a), Pair(l, r)) =>
      RootHash(h, l);
      LeafIsNoPair(h, a, Root(h, l), Root(h, r));
    case (Pair(l, r), Tip(a)) =>
      RootHash(h, l);
      LeafIsNoPair(h, a, Root(h, l), Root(h, r));
    case (Pair(l, r), Pair(m, s)) =>
      SamePair(h, Root(h, l), Root(h, r), Root(h, m), Root(h, s));
  }

  lemma CombineCommutes(h: Hasher, a: ProofNode, b: ProofNode)
    requires a.nodeHash == b.nodeHash ==> a == b
    ensures Combine(h, a, b) == Combine(h, b, a)
  {
  }

  /** A proof that reproduces the hash of a pair was climbing through one of its two children. */
  lemma ClimbThroughChild(h: Hasher, l: Tree, r: Tree, leaf: Leaf, proof: seq<ProofNode>) returns (left: bool)
    requires Ideal(h) && Climb(h, leaf, proof).Ok?
    requires Climb(h, leaf, proof).value.nodeHash == Root(h, Pair(l, r)).nodeHash
    ensures proof != [] && Climb(h, leaf, proof) == Ok(Root(h, Pair(l, r)))
    ensures var last := |proof| - 1;
            && Climb(h, leaf, proof[..last]) == Ok(Root(h, if left then l else r))
            && proof[last] == Root(h, if left then r else l)
  {
    hide Ideal, Combine;
    RootHash(h, l);
    if proof == [] {
      LeafIsNoPair(h, leaf, Root(h, l), Root(h, r));
      assert false;
    }
    LastStep(h, leaf, proof);
    var last := |proof| - 1;
    var below := Climb(h, leaf, proof[..last]).value;
    SamePair(h, below, proof[last], Root(h, l), Root(h, r));
    CombineSum(h, below, proof[last]);
    CombineSum(h, Root(h, l), Root(h, r));
    left := below == Root(h, l) && proof[last] == Root(h, r);
  }

  lemma CombineSum(h: Hasher, a: ProofNode, b: ProofNode)
    ensures Combine(h, a, b).sum == a.sum + b.sum
  {
  }

  /** A proof that reproduces the hash of a leaf is empty. */
  lemma ClimbIsLeaf(h: Hasher, own: Leaf, leaf: Leaf, proof: seq<ProofNode>)
    requires Ideal(h) && own.account < ADDRESSES && Climb(h, leaf, proof).Ok?
    requires Climb(h, leaf, proof).value.nodeHash == LeafNode(h, own).nodeHash
    ensures proof == [] && own == leaf && Climb(h, leaf, proof) == Ok(LeafNode(h, own))
  {
    if proof != [] {
      LastStep(h, leaf, proof);
      var last := |proof| - 1;
      ClimbedHash(h, leaf, proof[..last]);
      LeafIsNoPair(h, own, Climb(h, leaf, proof[..last]).value, proof[last]);
    }
  }

  /** Soundness: a proof that reproduces a tree's root hash is the path of a leaf of that tree. */
  lemma {:induction false} ProofIsAPath(h: Hasher, t: Tree, leaf: Leaf, proof: seq<ProofNode>) returns (path: seq<bool>)
    requires Ideal(h) && Sound(t) && Climb(h, leaf, proof).Ok?
    requires Climb(h, leaf, proof).value.nodeHash == Root(h, t).nodeHash
    ensures LeadsTo(t, path, leaf) && proof == Siblings(h, t, path)
    ensures Climb(h, leaf, proof).value == Root(h, t)
    decreases t
  {
    hide Ideal, Combine, Climb, LeafNode;
    match t
    case Tip(own) =>
      ClimbIsLeaf(h, own, leaf, proof);
      path := [];
    case Pair(l, r) =>
      var left := ClimbThroughChild(h, l, r, leaf, proof);
      var below := proof[..|proof| - 1];
      var rest := ProofIsAPath(h, if left then l else r, leaf, below);
      path := [left] + rest;
      assert proof == below + [proof[|proof| - 1]] && path[1..] == rest;
  }

  /**
   Completeness: the path of a leaf is accepted, exactly when no sibling on it has a zero sum.  A leaf
   beside an empty subtree cannot be claimed.
   */
  lemma {:induction false} PathIsAccepted(h: Hasher, t: Tree, path: seq<bool>, leaf: Leaf)
    requires Ideal(h) && Sound(t) && LeadsTo(t, path, leaf) && Root(h, t).sum < UINT256
    ensures Climb(h, leaf, Siblings(h, t, path)) == Ok(Root(h, t)) <==> NoEmptySibling(Siblings(h, t, path))
    decreases t
  {
    if t.Tip? {
    } else {
      hide Ideal, Combine, Climb;
      var left := path[0];
      var child, other := if left then t.left else t.right, if left then t.right else t.left;
      CombineSum(h, Root(h, t.left), Root(h, t.right));
      PathIsAccepted(h, child, path[1..], leaf);
      var below, sibling := Siblings(h, child, path[1..]), Root(h, other);
      assert Siblings(h, t, path) == below + [sibling];
      PairInEitherOrder(h, child, other, t);
      LastSiblingDecides(h, leaf, below, Root(h, child), sibling, other);
      assert NoEmptySibling(below + [sibling]) <==> NoEmptySibling(below) && sibling.sum != 0 by {
        OneMoreSibling(below, sibling);
      }
    }
  }

  /** Climbing past a sibling reaches the pair exactly if the climb below reached its child. */
  lemma LastSiblingDecides(h: Hasher, leaf: Leaf, below: seq<ProofNode>, node: ProofNode, sibling: ProofNode,
      other: Tree)
    requires Ideal(h) && sibling == Root(h, other) && node.sum + sibling.sum < UINT256
    ensures Climb(h, leaf, below + [sibling]) == Ok(Combine(h, node, sibling)) <==>
            Climb(h, leaf, below) == Ok(node) && sibling.sum != 0
  {
    hide Ideal, Combine, Root;
    var proof := below + [sibling];
    assert proof[..|proof| - 1] == below && proof[|proof| - 1] == sibling;
    RootHash(h, other);
    if Climb(h, leaf, proof) == Ok(Combine(h, node, sibling)) {
      LastStep(h, leaf, proof);
      SamePair(h, Climb(h, leaf, below).value, sibling, node, sibling);
    }
  }

  lemma OneMoreSibling(below: seq<ProofNode>, sibling: ProofNode)
    ensures NoEmptySibling(below + [sibling]) <==> NoEmptySibling(below) && sibling.sum != 0
  {
    var proof := below + [sibling];
    assert proof[|below|] == sibling && forall i :: 0 <= i < |below| ==> proof[i] == below[i];
  }

  predicate NoEmptySibling(proof: seq<ProofNode>) { forall i :: 0 <= i < |proof| ==> proof[i].sum != 0 }

  lemma PairInEitherOrder(h: Hasher, child: Tree, other: Tree, t: Tree)
    requires Ideal(h) && Sound(child) && Sound(other) && (t == Pair(child, other) || t == Pair(other, child))
    ensures Combine(h, Root(h, child), Root(h, other)) == Root(h, t)
  {
    if Root(h, child).nodeHash == Root(h, other).nodeHash {
      HashFixesSum(h, child, other);
    }
    CombineCommutes(h, Root(h, child), Root(h, other));
  }

  /**
   Some proof of a leaf is accepted against a tree's root exactly if the leaf is in the tree with no
   zero-sum sibling on the way to it.
   */
  lemma ProvableExactly(h: Hasher, t: Tree, leaf: Leaf)
    requires Ideal(h) && Sound(t) && Root(h, t).sum < UINT256
    ensures (exists proof :: Climb(h, leaf, proof) == Ok(Root(h, t))) <==>
            (exists path :: LeadsTo(t, path, leaf) && NoEmptySibling(Siblings(h, t, path)))
  {
    hide *;
    if proof :| Climb(h, leaf, proof) == Ok(Root(h, t)) {
      var path := ProofIsAPath(h, t, leaf, proof);
      PathIsAccepted(h, t, path, leaf);
    }
    if path :| LeadsTo(t, path, leaf) && NoEmptySibling(Siblings(h, t, path)) {
      PathIsAccepted(h, t, path, leaf);
    }
  }

  /** A tree of two leaves, one of them empty: the other one has no proof at all. */
  lemma LeafBesideEmptyHasNoProof(h: Hasher) returns (t: Tree, leaf: Leaf)
    requires Ideal(h)
    ensures Sound(t) && LeadsTo(t, [true], leaf) && leaf.amount == 5 && Root(h, t).sum == 5
    ensures forall proof :: Climb(h, leaf, proof) != Ok(Root(h, t))
  {
    leaf := Leaf(1, 0, 7, 5);
    var empty := Leaf(1, 1, 8, 0);
    t := Pair(Tip(leaf), Tip(empty));
    forall path | LeadsTo(t, path, leaf) ensures !NoEmptySibling(Siblings(h, t, path)) {
      assert LeadsTo(if path[0] then Tip(leaf) else Tip(empty), path[1..], leaf);
      assert Siblings(h, t, path) == [Root(h, Tip(empty))];
      assert Siblings(h, t, path)[0].sum == 0;
    }
    ProvableExactly(h, t, leaf);
  }

  // ---------------------------------------------------------------- the preflight check

  datatype Epoch = Epoch(rootHash: nat, funded: nat, claimStart: nat, claimEnd: nat)
  datatype Lookup = Missing | Found(epoch: Epoch)
  datatype Blocker = MalformedProof | DistributorPaused | EpochNotFound | ClaimNotStarted
                   | ClaimWindowClosed | InvalidProof | AlreadyClaimed

  /** What must hold for a claim to go through. */
  predicate Claimable(h: Hasher, claim: Claim, lookup: Lookup, claimed: bool, paused: bool, now: nat) {
    && !paused && !claimed && lookup.Found?
    && lookup.epoch.claimStart <= now < lookup.epoch.claimEnd
    && Accepted(h, claim, lookup.epoch.rootHash, lookup.epoch.funded)
  }

  /** `preflightToriumRewardClaim` after its reads; the leaf was checked before. */
  method Preflight(h: Hasher, claim: Claim, lookup: Lookup, claimed: bool, paused: bool, now: nat)
    returns (canClaim: bool, blockers: seq<Blocker>, computed: Result<ProofNode>)
    requires Encodable(claim.leaf)
    ensures canClaim <==> Claimable(h, claim, lookup, claimed, paused, now)
    ensures canClaim <==> blockers == []
    ensures computed == Climb(h, claim.leaf, claim.proof)
    ensures MalformedProof in blockers <==> computed.Err?
    ensures DistributorPaused in blockers <==> paused
    ensures EpochNotFound in blockers <==> lookup.Missing?
    ensures ClaimNotStarted in blockers <==> lookup.Found? && now < lookup.epoch.claimStart
    ensures ClaimWindowClosed in blockers <==> lookup.Found? && now >= lookup.epoch.claimEnd
    ensures InvalidProof in blockers <==>
      lookup.Found? && computed.Ok? && computed.value != ProofNode(lookup.epoch.rootHash, lookup.epoch.funded)
    ensures AlreadyClaimed in blockers <==> claimed
  {
    blockers := [];
    computed := ProcessProof(h, claim.leaf, claim.proof);
    if computed.Err? {
      blockers := blockers + [MalformedProof];
    }
    if paused {
      blockers := blockers + [DistributorPaused];
    }
    if lookup.Missing? {
      blockers := blockers + [EpochNotFound];
    } else {
      var epoch := lookup.epoch;
      if now < epoch.claimStart {
        blockers := blockers + [ClaimNotStarted];
      }
      if now >= epoch.claimEnd {
        blockers := blockers + [ClaimWindowClosed];
      }
      if computed.Ok? && (computed.value.nodeHash != epoch.rootHash || computed.value.sum != epoch.funded) {
        blockers := blockers + [InvalidProof];
      }
    }
    if claimed {
      blockers := blockers + [AlreadyClaimed];
    }
    canClaim := |blockers| == 0;
  }

  /** Claims of one epoch that all pass the preflight, with distinct indices, fit in its funding. */
  lemma PreflightedClaimsFit(h: Hasher, claims: seq<Claim>, epoch: Epoch, now: nat)
    requires Ideal(h)
    requires forall i :: 0 <= i < |claims| ==> Claimable(h, claims[i], Found(epoch), false, false, now)
    requires forall i, j :: 0 <= i < j < |claims| ==> claims[i].leaf.index != claims[j].leaf.index
    ensures Total(claims) <= epoch.funded
  {
    assert AllAccepted(h, claims, epoch.rootHash, epoch.funded);
    var n := LongestProof(claims);
    ClaimsStayWithinTheSum(h, claims, epoch.rootHash, epoch.funded, n);
  }

  function LongestProof(claims: seq<Claim>): (n: nat)
    ensures Shorter(claims, n)
  {
    if claims == [] then 0 else
      var rest := LongestProof(claims[1..]);
      assert forall i :: 1 <= i < |claims| ==> claims[i] == claims[1..][i - 1];
      if |claims[0].proof| > rest then |claims[0].proof| else rest
  }
}
