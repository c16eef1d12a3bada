/** Values shared by every part of the model. */
module Basics {

  datatype Option<+T> = None | Some(value: T)

  /** One byte of a serialized stream, script or address. */
  newtype byte = x: int | 0 <= x < 256

  /** The bytes of a CScript; the empty script is `[]`. */
  type Script = seq<byte>

  /** A 256-bit hash, read as the number it denotes. Hash functions themselves are not modelled. */
  type Hash = nat

  /** COutPoint: the key that identifies a transaction output, hence also a masternode. */
  datatype OutPoint = OutPoint(hash: Hash, n: nat) {
    /** operator< of COutPoint. */
    predicate Less(other: OutPoint) {
      hash < other.hash || (hash == other.hash && n < other.n)
    }
  }

  /** CTxIn. */
  datatype TxIn = TxIn(prevout: OutPoint, scriptSig: Script, nSequence: nat)

  function Reversed<T>(s: seq<T>): seq<T> {
    if s == [] then [] else [s[|s| - 1]] + Reversed(s[..|s| - 1])
  }

  /** Set view of a sequence. */
  ghost function Elements<T>(s: seq<T>): set<T> {
    set x | x in s
  }

  ghost predicate Distinct<T>(s: seq<T>) {
    forall i, j :: 0 <= i < j < |s| ==> s[i] != s[j]
  }

  lemma {:induction false} DistinctSize<T>(s: seq<T>)
    requires Distinct(s)
    ensures |Elements(s)| == |s|
  {
    if s == [] {
      assert Elements(s) == {};
    } else {
      var last := |s| - 1;
      DistinctSize(s[..last]);
      assert Elements(s) == Elements(s[..last]) + {s[last]};
    }
  }

  lemma {:induction false} AnElement<T>(s: set<T>) returns (x: T)
    requires s != {}
    ensures x in s
  {
    x :| x in s;
  }

  lemma {:induction false} SubsetSize<T>(a: set<T>, b: set<T>)
    requires a <= b
    ensures |a| <= |b|
    ensures |a| == |b| ==> a == b
  {
    assert b == a + (b - a);
  }
}

/** The voting constants of masternode.h. */
module VotingConstants {
  const MASTERNODE_MIN_CONFIRMATIONS := 7
  const VOTE_LOOKAHEAD := 10
  const VOTE_PAST_HORIZON := 10
  const VOTE_TIME_WINDOW_SECONDS := 30 * 60
  const REORG_DEPTH_BUFFER := 10
  const MIN_ENABLED_FOR_CONSENSUS := 5
  const VOTED_CONSENSUS_THRESHOLD_NUMERATOR := 3
  const VOTED_CONSENSUS_THRESHOLD_DENOMINATOR := 5
  const VOTE_QUEUE_LENGTH: nat := VOTE_LOOKAHEAD
  const VOTE_COMMIT_BUFFER := 3
  const MAX_LASTPAID_SCAN_DEPTH: nat := 50000
  const VOTER_ELIGIBILITY_DEPTH := MASTERNODE_MIN_CONFIRMATIONS + REORG_DEPTH_BUFFER
}
