/**
 * Why a single worker's traversal ends. Each pending job weighs
 * `fanOut ^ (maxLen - |job|)`: processing a job removes its weight and adds
 * fewer than `fanOut` strictly longer jobs (its subdirectories, which are
 * paths of the volume and so shorter than `maxLen`), each weighing at most a
 * `fanOut`-th of it, so the total weight of the queue strictly decreases.
 */
module Progress {
  import opened Paths

  function Pow(b: nat, e: nat): (r: nat)
    ensures b >= 1 ==> r >= 1
  {
    if e == 0 then 1 else b * Pow(b, e - 1)
  }

  lemma MulAtLeast(b: nat, x: nat)
    requires b >= 1
    ensures x <= b * x
  {
  }

  lemma {:induction false} PowMonotone(b: nat, e: nat, f: nat)
    requires b >= 1 && e <= f
    ensures Pow(b, e) <= Pow(b, f)
    decreases f
  {
    if e < f {
      PowMonotone(b, e, f - 1);
      MulAtLeast(b, Pow(b, f - 1));
    }
  }

  function Weight(maxLen: nat, fanOut: nat, job: Path): (w: nat) {
    if |job| < maxLen then Pow(fanOut, maxLen - |job|) else 1
  }

  function Potential(maxLen: nat, fanOut: nat, jobs: seq<Path>): (p: nat)
    decreases |jobs|
  {
    if jobs == [] then 0
    else Potential(maxLen, fanOut, jobs[..|jobs| - 1]) + Weight(maxLen, fanOut, jobs[|jobs| - 1])
  }

  lemma {:induction false} PotentialAppend(maxLen: nat, fanOut: nat, a: seq<Path>, b: seq<Path>)
    ensures Potential(maxLen, fanOut, a + b) == Potential(maxLen, fanOut, a) + Potential(maxLen, fanOut, b)
    decreases |b|
  {
    if b == [] {
      assert a + b == a;
    } else {
      var b' := b[..|b| - 1];
      assert (a + b)[..|a + b| - 1] == a + b';
      PotentialAppend(maxLen, fanOut, a, b');
    }
  }

  lemma MulMonotone(a: nat, b: nat, p: nat)
    requires a <= b
    ensures a * p <= b * p
  {
  }

  lemma MulSucc(k: nat, p: nat)
    ensures (k + 1) * p == k * p + p
  {
  }

  lemma {:induction false} ChildrenPotential(maxLen: nat, fanOut: nat, children: seq<Path>, bound: nat)
    requires forall c :: c in children ==> Weight(maxLen, fanOut, c) <= bound
    ensures Potential(maxLen, fanOut, children) <= |children| * bound
    decreases |children|
  {
    if children != [] {
      var rest := children[..|children| - 1];
      assert forall x :: x in rest ==> x in children;
      ChildrenPotential(maxLen, fanOut, rest, bound);
      assert children[|children| - 1] in children;
      MulSucc(|rest|, bound);
    }
  }

  /** `k` children of weight at most `p` weigh less than `n * p` when `k < n`. */
  lemma BelowParent(total: nat, k: nat, n: nat, p: nat)
    requires total <= k * p && k < n && p >= 1
    ensures total < n * p
  {
    MulMonotone(k, n - 1, p);
    assert n * p == (n - 1) * p + p;
  }

  /** Each child of `directory` weighs at most a `fanOut`-th of it. */
  lemma ChildWeights(maxLen: nat, fanOut: nat, directory: Path, children: seq<Path>)
    requires fanOut >= 1 && |directory| + 1 < maxLen
    requires forall c :: c in children ==> |directory| < |c| < maxLen
    ensures Weight(maxLen, fanOut, directory) == fanOut * Pow(fanOut, maxLen - |directory| - 1)
    ensures forall c :: c in children ==> Weight(maxLen, fanOut, c) <= Pow(fanOut, maxLen - |directory| - 1)
  {
    var m := maxLen - |directory|;
    forall c | c in children ensures Weight(maxLen, fanOut, c) <= Pow(fanOut, m - 1) {
      PowMonotone(fanOut, maxLen - |c|, m - 1);
    }
  }

  /** Taking `directory` off the front and appending its children lowers the potential. */
  lemma PotentialDrops(maxLen: nat, fanOut: nat, directory: Path, rest: seq<Path>, children: seq<Path>)
    requires fanOut >= 1 && |children| < fanOut
    requires forall c :: c in children ==> |directory| < |c| < maxLen
    ensures Potential(maxLen, fanOut, rest + children) < Potential(maxLen, fanOut, [directory] + rest)
  {
    PotentialAppend(maxLen, fanOut, rest, children);
    PotentialAppend(maxLen, fanOut, [directory], rest);
    assert Potential(maxLen, fanOut, [directory]) == Weight(maxLen, fanOut, directory) by {
      assert [directory][..0] == [];
    }
    if children != [] {
      assert children[0] in children;
      var p := Pow(fanOut, maxLen - |directory| - 1);
      ChildWeights(maxLen, fanOut, directory, children);
      ChildrenPotential(maxLen, fanOut, children, p);
      BelowParent(Potential(maxLen, fanOut, children), |children|, fanOut, p);
    }
  }
}
