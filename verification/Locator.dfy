/**
 * CBlockLocator: a logarithmic sample of a chain of blocks, by which another node finds where its own main
 * chain parts from it.
 */
module Locator {
  import opened Basics
  import opened Arithmetic

  /** What is known of a block: its height, and whether it lies in the main chain. */
  datatype BlockIndex = BlockIndex(nHeight: nat, inMainChain: bool)

  type BlockMap = map<Hash, BlockIndex>

  /** How far behind the first entry the entry at a place is. */
  function Distance(i: nat): nat {
    if i <= 10 then i else 9 + Power(2, i - 10)
  }

  /** The step from an entry to the next. */
  function StepAfter(i: nat): nat {
    if i < 10 then 1 else Power(2, i - 10)
  }

  lemma {:induction false} DistanceStep(i: nat, next: nat)
    requires next == i + 1
    ensures Distance(next) == Distance(i) + StepAfter(i)
    ensures StepAfter(next) == if i >= 10 then 2 * StepAfter(i) else StepAfter(i)
    ensures StepAfter(i) >= 1
    ensures Distance(i) >= 10 <==> i >= 10
  {
    PowerIsPositive(2, if i < 10 then 0 else i - 10);
    assert Power(2, 0) == 1 && Power(2, 1) == 2;
  }

  lemma {:induction false} DistanceGrows(i: nat, j: nat)
    requires i < j
    ensures Distance(i) < Distance(j)
    decreases j
  {
    DistanceStep(j - 1, j);
    if i < j - 1 {
      DistanceGrows(i, j - 1);
    }
  }

  /** The entries before the last are the blocks of a branch at every distance that the branch reaches; the last
      is the genesis block of the network. A branch lists its blocks by height. */
  ghost predicate IsLocator(vHave: seq<Hash>, branch: seq<Hash>, genesis: Hash) {
    && vHave != [] && vHave[|vHave| - 1] == genesis
    && |branch| <= Distance(|vHave| - 1)
    && forall i :: 0 <= i < |vHave| - 1 ==> Distance(i) < |branch| && vHave[i] == branch[|branch| - 1 - Distance(i)]
  }

  predicate Matches(h: Hash, blocks: BlockMap) {
    h in blocks && blocks[h].inMainChain
  }

  /** The place of the first entry in the main chain, or the number of entries. */
  function FirstMatch(vHave: seq<Hash>, blocks: BlockMap): (i: nat)
    ensures i <= |vHave|
    ensures forall j :: 0 <= j < i ==> !Matches(vHave[j], blocks)
    ensures i < |vHave| ==> Matches(vHave[i], blocks)
  {
    if vHave == [] || Matches(vHave[0], blocks) then 0 else 1 + FirstMatch(vHave[1..], blocks)
  }

  class BlockLocator {
    var vHave: seq<Hash>

    constructor (vHaveIn: seq<Hash>)
      ensures vHave == vHaveIn
    {
      vHave := vHaveIn;
    }

    /** Takes the branch that ends in the block pindex, or no block at all. */
    method Set(branch: seq<Hash>, genesis: Hash)
      modifies this
      ensures IsLocator(vHave, branch, genesis)
    {
      var nStep := 1;
      vHave := [];
      var pindex := |branch| - 1;
      while pindex >= 0
        invariant nStep == StepAfter(|vHave|)
        invariant pindex == |branch| - 1 - Distance(|vHave|) || (pindex == -1 && |branch| <= Distance(|vHave|))
        invariant forall i :: 0 <= i < |vHave| ==>
                  Distance(i) < |branch| && vHave[i] == branch[|branch| - 1 - Distance(i)]
        decreases pindex
      {
        ghost var k := |vHave|;
        DistanceStep(k, k + 1);
        vHave := vHave + [branch[pindex]];
        ghost var from := pindex;
        var i := 0;
        while pindex >= 0 && i < nStep
          invariant 0 <= i <= nStep && pindex == from - i && pindex >= -1
        {
          pindex := pindex - 1;
          i := i + 1;
        }
        if |vHave| > 10 {
          nStep := nStep * 2;
        }
      }
      vHave := vHave + [genesis];
    }

    /** Retraces how far back the first entry in the main chain was in the sender's branch. */
    method GetDistanceBack(mapBlockIndex: BlockMap) returns (nDistance: nat)
      ensures nDistance == Distance(FirstMatch(vHave, mapBlockIndex))
    {
      nDistance := 0;
      var nStep := 1;
      for k := 0 to |vHave|
        invariant nDistance == Distance(k) && nStep == StepAfter(k)
        invariant forall j :: 0 <= j < k ==> !Matches(vHave[j], mapBlockIndex)
      {
        var hash := vHave[k];
        if hash in mapBlockIndex {
          if mapBlockIndex[hash].inMainChain {
            return nDistance;
          }
        }
        DistanceStep(k, k + 1);
        nDistance := nDistance + nStep;
        if nDistance > 10 {
          nStep := nStep * 2;
        }
      }
    }

    /** The first entry in the main chain, or the genesis block. */
    method GetBlockHash(mapBlockIndex: BlockMap, genesis: Hash) returns (found: Hash)
      ensures found == Found(vHave, mapBlockIndex, genesis)
    {
      for k := 0 to |vHave|
        invariant forall j :: 0 <= j < k ==> !Matches(vHave[j], mapBlockIndex)
      {
        var hash := vHave[k];
        if hash in mapBlockIndex {
          if mapBlockIndex[hash].inMainChain {
            return hash;
          }
        }
      }
      return genesis;
    }

    /** The height of that block. */
    method GetHeight(mapBlockIndex: BlockMap, genesis: Hash) returns (nHeight: nat)
      ensures var found := Found(vHave, mapBlockIndex, genesis);
              nHeight == if found in mapBlockIndex then mapBlockIndex[found].nHeight else 0
    {
      var found := GetBlockHash(mapBlockIndex, genesis);
      if found !in mapBlockIndex { return 0; }
      nHeight := mapBlockIndex[found].nHeight;
    }
  }

  function Found(vHave: seq<Hash>, blocks: BlockMap, genesis: Hash): (h: Hash)
    ensures genesis in blocks ==> h in blocks
  {
    var i := FirstMatch(vHave, blocks);
    if i < |vHave| then vHave[i] else genesis
  }

  /** The list is logarithmic in the length of the branch. */
  lemma {:induction false} LengthIsLogarithmic(vHave: seq<Hash>, branch: seq<Hash>, genesis: Hash)
    requires IsLocator(vHave, branch, genesis)
    ensures |vHave| > 12 ==> Power(2, |vHave| - 12) + 9 < |branch|
    ensures |vHave| <= 12 ==> |vHave| <= |branch| + 1
  {
    if |vHave| > 1 {
      var last := |vHave| - 2;
      assert Distance(last) < |branch| && vHave[last] == branch[|branch| - 1 - Distance(last)];
    }
  }

  // ----- Finding the fork

  /** The map describes a main chain, listed by height. */
  ghost predicate Describes(blocks: BlockMap, main: seq<Hash>) {
    && (forall h :: Matches(h, blocks) <==> h in main)
    && forall j :: 0 <= j < |main| ==> main[j] in blocks && blocks[main[j]].nHeight == j
  }

  /** Two chains agree up to a height and share nothing after it. */
  ghost predicate ForksAt(branch: seq<Hash>, main: seq<Hash>, fork: nat) {
    && fork < |branch| && fork < |main| && branch[..fork + 1] == main[..fork + 1]
    && forall j :: fork < j < |branch| ==> branch[j] !in main
  }

  /** Where the retraced distance is not that of the genesis entry, it is the distance of the block found. */
  lemma {:induction false} DistanceIsTrue(vHave: seq<Hash>, branch: seq<Hash>, blocks: BlockMap, genesis: Hash)
    requires IsLocator(vHave, branch, genesis) && FirstMatch(vHave, blocks) < |vHave| - 1
    ensures var d := Distance(FirstMatch(vHave, blocks));
            d < |branch| && Found(vHave, blocks, genesis) == branch[|branch| - 1 - d]
  {
  }

  /** One entry past a distance is at most twice as far, and near the tip no further at all. */
  lemma {:induction false} Overshoot(i: nat, d: nat)
    requires i == 0 || Distance(i - 1) < d
    ensures Distance(i) <= 2 * d && (i <= 11 ==> Distance(i) <= d) && (i > 11 ==> d > 11)
  {
    assert Power(2, 0) == 1 && Power(2, 1) == 2;
    if i > 11 {
      assert Power(2, i - 10) == 2 * Power(2, i - 11) && Power(2, i - 11) == 2 * Power(2, i - 12);
      PowerIsPositive(2, i - 12);
    }
  }

  /** The block found lies on both chains, no higher than the fork, and no more than twice as far back as the
      fork. A fork within eleven blocks is found exactly. */
  lemma {:induction false} FindsForkWithinTwice(vHave: seq<Hash>, branch: seq<Hash>, main: seq<Hash>, blocks: BlockMap,
                                                genesis: Hash, fork: nat)
    requires IsLocator(vHave, branch, genesis) && Describes(blocks, main) && ForksAt(branch, main, fork) &&
             main[0] == genesis
    ensures var found := Found(vHave, blocks, genesis);
            && found in blocks && blocks[found].nHeight <= fork &&
                 found == branch[blocks[found].nHeight] == main[blocks[found].nHeight]
            && var tip := |branch| - 1;
               var back := tip - blocks[found].nHeight;
               tip - fork <= back <= 2 * (tip - fork) && (tip - fork <= 11 ==> back == tip - fork)
  {
    var tip, last := |branch| - 1, |vHave| - 1;
    var i := FirstMatch(vHave, blocks);
    assert Matches(genesis, blocks) && vHave[last] == genesis;
    Overshoot(i, tip - fork);
    var height := if i < last then tip - Distance(i) else 0;
    assert branch[height] == branch[..fork + 1][height] == main[..fork + 1][height] == main[height];
  }
}
