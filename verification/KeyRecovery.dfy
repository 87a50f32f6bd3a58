// Recovery of a missing player's key from Shamir shares (internal/fault/shamir.go).
module KeyRecovery {
  import opened ModArith
  import opened Polynomial
  import opened Shamir
  import opened Sra
  import opened Wrappers

  /** Two seats at least, and no fewer than half of the table. */
  predicate Enough(seats: nat, numPlayers: int) {
    seats >= 2 && 2 * seats >= numPlayers
  }

  /** shares are t or more of the shares that SplitAndDistribute makes of k for n players. */
  ghost predicate SharesOfKey(shares: seq<Share>, t: nat, n: nat, k: Key) {
    && KeyPair(k) && k.e < k.p - 1 && n < k.p
    && exists c :: |c| == t <= |shares| && t >= 1 && c[0] == k.d.value < k.p
                   && DistinctSharesOf(shares, SharesOf(c, n, k.p))
  }

  /** all are the shares that SplitAndDistribute makes of k for a table of n, with its threshold t. */
  ghost predicate SplitOf(all: seq<Share>, t: nat, n: nat, k: Key) {
    SharesOfKey(all, t, n, k) && |all| == n && forall seats: nat :: Enough(seats, n) <==> seats >= t
  }

  /** SplitAndDistribute: half of the table, and two seats at least, are needed to rebuild the key. */
  method SplitAndDistribute(k: Key, numPlayers: int, draws: seq<int>) returns (r: Result<(seq<Share>, int)>)
    requires IsPrivate(k) && |draws| >= numPlayers
    ensures r.Err? <==> numPlayers < 2
    ensures r.Ok? ==> 2 <= r.value.1 <= numPlayers == |r.value.0|
    ensures r.Ok? ==> 2 * r.value.1 >= numPlayers && (r.value.1 == 2 || 2 * (r.value.1 - 1) < numPlayers)
    ensures r.Ok? ==> forall seats: nat :: Enough(seats, numPlayers) <==> seats >= r.value.1
    ensures r.Ok? && KeyPair(k) && k.e < k.p - 1 && k.d.value < k.p && numPlayers < k.p ==>
              SplitOf(r.value.0, r.value.1, numPlayers, k)
  {
    if numPlayers < 2 {
      return Err(TooFewPlayers);
    }
    var threshold := (numPlayers + 1) / 2;
    if threshold < 2 {
      threshold := 2;
    }
    var share := SplitSecret(k.d.value, threshold, numPlayers, k.p, draws);
    ghost var c := [k.d.value] + draws[..threshold - 1];
    assert c[0] == k.d.value && |c| == threshold;
    forall i | 0 <= i < numPlayers ensures SharesOf(c, numPlayers, k.p)[i] in SharesOf(c, numPlayers, k.p) {
    }
    r := if share.Ok? then Ok((share.value, threshold)) else Err(BadThreshold);
  }

  lemma SharesOfKeyPrefix(shares: seq<Share>, t: nat, n: nat, k: Key)
    requires SharesOfKey(shares, t, n, k)
    ensures t <= |shares| && SharesOfKey(shares[..t], t, n, k)
  {
    var c :| |c| == t <= |shares| && t >= 1 && c[0] == k.d.value < k.p && DistinctSharesOf(shares, SharesOf(c, n, k.p));
    assert DistinctSharesOf(shares[..t], SharesOf(c, n, k.p));
  }

  /** Enough shares never collide, and the secret they hide is the private exponent. */
  lemma RecoversExponent(shares: seq<Share>, t: nat, n: nat, k: Key)
    requires SharesOfKey(shares, t, n, k)
    ensures shares != [] && Distinct(Indexes(shares), k.p)
    ensures forall v :: IsSecret(shares, k.p, v) ==> v == k.d.value
  {
    var c :| |c| == t <= |shares| && t >= 1 && c[0] == k.d.value < k.p && DistinctSharesOf(shares, SharesOf(c, n, k.p));
    SplitSharesDistinct(c, n, k.p, shares);
    forall v | IsSecret(shares, k.p, v) ensures v == k.d.value {
      ShamirRoundTrip(c, n, k.p, shares, v);
    }
  }

  lemma RecoversKey(shares: seq<Share>, t: nat, n: nat, k: Key)
    requires SharesOfKey(shares, t, n, k)
    ensures 0 < t <= |shares| && Distinct(Indexes(shares[..t]), k.p)
    ensures forall v :: IsSecret(shares[..t], k.p, v) ==> v == k.d.value
    ensures ModInverse(k.d.value, k.p - 1) == Unit(k.e)
  {
    SharesOfKeyPrefix(shares, t, n, k);
    RecoversExponent(shares[..t], t, n, k);
    assert k.e * k.d.value == k.d.value * k.e;
    ModInverseFinds(k.d.value, k.e, k.p - 1);
  }

  // ------------------------------------------------------------------- who is left

  /** The shares of the seats that are left. */
  function SharesAt(all: seq<Share>, left: seq<nat>): (r: seq<Share>)
    requires forall i :: 0 <= i < |left| ==> left[i] < |all|
    ensures |r| == |left|
  {
    seq(|left|, i requires 0 <= i < |left| => all[left[i]])
  }

  /** left names different seats of a table of n. */
  ghost predicate SeatsLeft(left: seq<nat>, n: nat) {
    && (forall i :: 0 <= i < |left| ==> left[i] < n)
    && (forall i, j :: 0 <= i < j < |left| ==> left[i] != left[j])
  }

  ghost predicate IndexesDiffer(held: seq<Share>) {
    forall i, j :: 0 <= i < j < |held| ==> held[i].index != held[j].index
  }

  lemma HeldAreShares(all: seq<Share>, t: nat, n: nat, k: Key, held: seq<Share>)
    requires SplitOf(all, t, n, k) && IndexesDiffer(held) && forall i :: 0 <= i < |held| ==> held[i] in all
    ensures SharesOfKey(held, t, n, k) <==> Enough(|held|, n)
    ensures exists c :: |c| == t && DistinctSharesOf(held, SharesOf(c, n, k.p))
  {
    var c :| |c| == t <= |all| && t >= 1 && c[0] == k.d.value < k.p && DistinctSharesOf(all, SharesOf(c, n, k.p));
    assert DistinctSharesOf(held, SharesOf(c, n, k.p));
  }

  lemma SharesAtDiffer(all: seq<Share>, t: nat, n: nat, k: Key, left: seq<nat>)
    requires SplitOf(all, t, n, k) && SeatsLeft(left, n)
    ensures IndexesDiffer(SharesAt(all, left)) && forall i :: 0 <= i < |left| ==> SharesAt(all, left)[i] in all
  {
    var shares := SharesAt(all, left);
    forall i, j | 0 <= i < j < |left| ensures shares[i].index != shares[j].index {
      var x, y := left[i], left[j];
      assert if x < y then all[x].index != all[y].index else all[y].index != all[x].index;
    }
  }

  /** The shares of the seats that are left rebuild the key exactly if the seats are enough. */
  lemma LeftRecover(all: seq<Share>, t: nat, n: nat, k: Key, left: seq<nat>)
    requires SplitOf(all, t, n, k) && SeatsLeft(left, n)
    ensures SharesOfKey(SharesAt(all, left), t, n, k) <==> Enough(|left|, n)
  {
    SharesAtDiffer(all, t, n, k, left);
    HeldAreShares(all, t, n, k, SharesAt(all, left));
  }

  /** On a table of three or more, any seats fewer than half can go and the others rebuild the key. */
  lemma MinorityGone(all: seq<Share>, t: nat, n: nat, k: Key, left: seq<nat>)
    requires SplitOf(all, t, n, k) && SeatsLeft(left, n) && n >= 3 && 2 * (n - |left|) < n
    ensures SharesOfKey(SharesAt(all, left), t, n, k)
  {
    LeftRecover(all, t, n, k, left);
  }

  /** The shares of too few seats fit every secret: some polynomial of the split's degree has it. */
  lemma TooFewLearnNothing(all: seq<Share>, t: nat, n: nat, k: Key, left: seq<nat>, candidate: int)
    requires SplitOf(all, t, n, k) && SeatsLeft(left, n) && !Enough(|left|, n)
    ensures exists c :: |c| <= t && Through(c, SharesAt(all, left), k.p) && Cong(Eval(c, 0), candidate, k.p)
  {
    var shares := SharesAt(all, left);
    SharesAtDiffer(all, t, n, k, left);
    HeldAreShares(all, t, n, k, shares);
    var c :| |c| == t && DistinctSharesOf(shares, SharesOf(c, n, k.p));
    SplitSharesDistinct(c, n, k.p, shares);
    forall i | 0 <= i < |shares| ensures !Divides(k.p, shares[i].index) {
      assert shares[i] in SharesOf(c, n, k.p);
      ModIs(shares[i].index, k.p, 0, shares[i].index);
    }
    var other := BelowThresholdHides(shares, k.p, candidate);
  }

  // ------------------------------------------------------------------ shares arriving

  /** What is held when a share comes in: a second one with its index is dropped. */
  function Added(held: seq<Share>, share: Share): seq<Share> {
    if exists i :: 0 <= i < |held| && held[i].index == share.index then held else held + [share]
  }

  function AddedAll(arrivals: seq<Share>): seq<Share> {
    if arrivals == [] then [] else Added(AddedAll(arrivals[..|arrivals| - 1]), arrivals[|arrivals| - 1])
  }

  /** The seats that sent something: a share's index names its seat. */
  function Senders(shares: seq<Share>): set<int> {
    set s | s in shares :: s.index
  }

  lemma AddedKeeps(held: seq<Share>, share: Share)
    requires IndexesDiffer(held)
    ensures IndexesDiffer(Added(held, share)) && Senders(Added(held, share)) == Senders(held) + {share.index}
    ensures forall s :: s in Added(held, share) ==> s in held || s == share
  {
    if exists i :: 0 <= i < |held| && held[i].index == share.index {
      var i :| 0 <= i < |held| && held[i].index == share.index;
      assert held[i] in held;
    } else {
      forall x | x in Senders(held) + {share.index} ensures x in Senders(held + [share]) {
        if x != share.index {
          var s :| s in held && s.index == x;
          assert s in held + [share];
        } else {
          assert share in held + [share];
        }
      }
    }
  }

  lemma {:induction false} AddedAllKeeps(arrivals: seq<Share>)
    ensures IndexesDiffer(AddedAll(arrivals)) && Senders(AddedAll(arrivals)) == Senders(arrivals)
    ensures forall s :: s in AddedAll(arrivals) ==> s in arrivals
  {
    if arrivals != [] {
      var front, last := arrivals[..|arrivals| - 1], arrivals[|arrivals| - 1];
      AddedAllKeeps(front);
      AddedKeeps(AddedAll(front), last);
      assert arrivals == front + [last];
      assert Senders(arrivals) == Senders(front) + {last.index};
    }
  }

  lemma {:induction false} SendersCounted(held: seq<Share>)
    requires IndexesDiffer(held)
    ensures |Senders(held)| == |held|
  {
    if held != [] {
      var front, last := held[..|held| - 1], held[|held| - 1];
      SendersCounted(front);
      assert held == front + [last];
      assert Senders(held) == Senders(front) + {last.index};
      assert last.index !in Senders(front);
    }
  }

  /**
   * In whatever order and however often the shares of a split come in, the store can rebuild the
   * key from them exactly if enough different seats have sent theirs.
   */
  lemma ArrivalsRecover(all: seq<Share>, t: nat, n: nat, k: Key, arrivals: seq<Share>)
    requires SplitOf(all, t, n, k) && forall s :: s in arrivals ==> s in all
    ensures SharesOfKey(AddedAll(arrivals), t, n, k) <==> Enough(|Senders(arrivals)|, n)
  {
    AddedAllKeeps(arrivals);
    SendersCounted(AddedAll(arrivals));
    HeldAreShares(all, t, n, k, AddedAll(arrivals));
  }

  class KeyShareStore {
    var sharesReceived: map<string, Share>
    var sharesHeld: map<string, seq<Share>>
    const prime: int

    constructor (prime: int)
      ensures this.prime == prime && sharesReceived == map[] && sharesHeld == map[] && Valid()
    {
      this.prime := prime;
      sharesReceived := map[];
      sharesHeld := map[];
    }

    function Held(owner: string): seq<Share>
      reads this`sharesHeld
    {
      if owner in sharesHeld then sharesHeld[owner] else []
    }

    /** No two held shares of one owner have the same index. */
    ghost predicate Valid()
      reads this`sharesHeld
    {
      forall owner, i, j :: 0 <= i < j < |Held(owner)| ==> Held(owner)[i].index != Held(owner)[j].index
    }

    method StoreMyShare(owner: string, share: Share)
      modifies this`sharesReceived
      ensures sharesReceived == old(sharesReceived)[owner := share]
    {
      sharesReceived := sharesReceived[owner := share];
    }

    method ContributeShare(owner: string) returns (r: Option<Share>)
      ensures r == if owner in sharesReceived then Some(sharesReceived[owner]) else None
    {
      if owner in sharesReceived {
        return Some(sharesReceived[owner]);
      }
      return None;
    }

    /** A second share with an index already held is dropped. */
    method AddReconstructionShare(owner: string, share: Share)
      requires Valid()
      modifies this
      ensures Valid() && sharesReceived == old(sharesReceived)
      ensures Held(owner) == Added(old(Held(owner)), share)
      ensures forall other :: other != owner ==> Held(other) == old(Held(other))
    {
      var held := Held(owner);
      var i := 0;
      while i < |held|
        invariant 0 <= i <= |held|
        invariant forall j :: 0 <= j < i ==> held[j].index != share.index
      {
        if held[i].index == share.index {
          return;
        }
        i := i + 1;
      }
      sharesHeld := sharesHeld[owner := held + [share]];
      forall other, x, y | 0 <= x < y < |Held(other)| ensures Held(other)[x].index != Held(other)[y].index {
        assert other != owner ==> Held(other) == old(Held(other));
      }
    }

    predicate CanReconstruct(owner: string, threshold: nat)
      reads this
    {
      |Held(owner)| >= threshold
    }

    method Reconstruct(owner: string, threshold: nat) returns (r: Result<int>)
      requires IsPrime(prime)
      ensures !CanReconstruct(owner, threshold) ==> r == Err(NotEnoughShares)
      ensures CanReconstruct(owner, threshold) ==>
                (r.Ok? <==> threshold > 0 && Distinct(Indexes(Held(owner)[..threshold]), prime))
      ensures r.Ok? ==> IsSecret(Held(owner)[..threshold], prime, r.value)
    {
      var shares := Held(owner);
      if |shares| < threshold {
        return Err(NotEnoughShares);
      }
      r := ReconstructSecret(shares[..threshold], prime);
    }

    /** The rebuilt key has the interpolated d and its inverse e; from true shares it is the owner's key. */
    method ReconstructSRAKey(owner: string, threshold: nat) returns (r: Result<Key>)
      requires IsPrime(prime) && prime > 2
      ensures r.Ok? ==> CanReconstruct(owner, threshold) && KeyPair(r.value) && r.value.p == prime
      ensures r.Ok? ==> IsSecret(Held(owner)[..threshold], prime, r.value.d.value)
      ensures forall n: nat, k: Key :: k.p == prime && SharesOfKey(Held(owner), threshold, n, k) ==> r == Ok(k)
    {
      ghost var held := Held(owner);
      var d := Reconstruct(owner, threshold);
      var e := if d.Ok? then ModInverse(d.value, prime - 1) else NotAUnit;
      forall n: nat, k: Key | k.p == prime && SharesOfKey(held, threshold, n, k)
        ensures d == Ok(k.d.value) && e == Unit(k.e) && k == Key(k.e, Some(k.d.value), prime)
      {
        RecoversKey(held, threshold, n, k);
        assert d.Ok? && IsSecret(held[..threshold], prime, d.value);
      }
      if d.Err? {
        return Err(d.error);
      }
      if e.NotAUnit? {
        return Err(NoInverse);
      }
      assert d.value * e.value == e.value * d.value;
      return Ok(Key(e.value, Some(d.value), prime));
    }
  }
}
