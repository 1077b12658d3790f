/** The search for better keys: a smaller public key has a longer run of leading zeros, hence a higher address. */
module GenKeys {
  import opened Bits
  import opened Addresses
  import opened AddressLaws

  /** `a` is smaller than `b` at the first place where they differ. */
  ghost predicate LexLess(a: seq<Byte>, b: seq<Byte>)
    requires |a| >= |b|
  {
    exists i | 0 <= i < |b| :: LessAt(a, b, i)
  }

  ghost predicate LessAt(a: seq<Byte>, b: seq<Byte>, i: nat)
    requires i < |b| <= |a|
  {
    a[i] < b[i] && forall j | 0 <= j < i :: a[j] == b[j]
  }

  method IsBetter(oldPub: seq<Byte>, newPub: seq<Byte>) returns (better: bool)
    requires |newPub| >= |oldPub|
    ensures better <==> LexLess(newPub, oldPub)
  {
    for idx := 0 to |oldPub|
      invariant forall j | 0 <= j < idx :: newPub[j] == oldPub[j]
    {
      if newPub[idx] < oldPub[idx] {
        assert LessAt(newPub, oldPub, idx);
        return true;
      }
      if newPub[idx] > oldPub[idx] {
        break;
      }
    }
    return false;
  }

  // ----- A strict total order on keys -----

  lemma Irreflexive(a: Key)
    ensures !LexLess(a, a)
  {
  }

  lemma Transitive(a: Key, b: Key, c: Key)
    requires LexLess(a, b) && LexLess(b, c)
    ensures LexLess(a, c)
  {
    var i :| 0 <= i < |b| && LessAt(a, b, i);
    var j :| 0 <= j < |c| && LessAt(b, c, j);
    assert LessAt(a, c, if i < j then i else j);
  }

  lemma Trichotomy(a: seq<Byte>, b: seq<Byte>)
    requires |a| == |b|
    ensures LexLess(a, b) || a == b || LexLess(b, a)
  {
    if a != b {
      var i := FirstDifferentByte(a, b);
      assert LessAt(a, b, i) || LessAt(b, a, i);
    }
  }

  lemma FirstDifferentByte(a: seq<Byte>, b: seq<Byte>) returns (i: nat)
    requires |a| == |b| && a != b
    ensures i < |a| && a[i] != b[i] && forall j | 0 <= j < i :: a[j] == b[j]
  {
    i := 0;
    while i < |a| && a[i] == b[i]
      invariant i <= |a| && forall j | 0 <= j < i :: a[j] == b[j]
    {
      i := i + 1;
    }
  }

  // ----- The two loops -----

  datatype KeySet = KeySet(pub: Key, count: nat)

  const WORST_KEY: Key := seq(KEY_SIZE, _ => 0xff)

  ghost predicate AtMost(a: Key, b: Key) {
    a == b || LexLess(a, b)
  }

  /** The smallest key of a stream, or the starting one. */
  ghost predicate IsBest(best: Key, start: Key, keys: seq<Key>) {
    && (best == start || best in keys)
    && AtMost(best, start)
    && forall k | k in keys :: AtMost(best, k)
  }

  function Tries(out: seq<KeySet>): nat {
    if out == [] then 0 else Tries(out[..|out| - 1]) + out[|out| - 1].count
  }

  /** Each report is better than every earlier one. */
  ghost predicate Improving(out: seq<KeySet>) {
    forall i, j | 0 <= i < j < |out| :: LexLess(out[j].pub, out[i].pub)
  }

  lemma TriesAppend(out: seq<KeySet>, k: KeySet)
    ensures Tries(out + [k]) == Tries(out) + k.count
  {
    assert (out + [k])[..|out|] == out;
  }

  /** Every report is the best of all keys tried up to it. */
  ghost predicate EachBest(out: seq<KeySet>, keys: seq<Key>) {
    forall i | 0 <= i < |out| :: BestAt(out, keys, i)
  }

  /** No better key is among the first `n`. */
  ghost predicate BestOf(best: Key, keys: seq<Key>, n: nat) {
    n <= |keys| && forall j | 0 <= j < n :: AtMost(best, keys[j])
  }

  ghost predicate BestAt(out: seq<KeySet>, keys: seq<Key>, i: nat)
    requires i < |out|
  {
    BestOf(out[i].pub, keys, Tries(out[..i + 1]))
  }

  lemma BestAtPrefix(out: seq<KeySet>, more: seq<KeySet>, keys: seq<Key>, moreKeys: seq<Key>, i: nat)
    requires i < |out| && BestAt(out, keys, i) && out <= more && keys <= moreKeys
    ensures BestAt(more, moreKeys, i)
  {
    assert more[..i + 1] == out[..i + 1];
    hide AtMost;
    assert forall j | 0 <= j < |keys| :: moreKeys[j] == keys[j];
  }

  lemma EachBestMore(out: seq<KeySet>, more: seq<KeySet>, keys: seq<Key>, moreKeys: seq<Key>)
    requires EachBest(out, keys) && out <= more && keys <= moreKeys && |more| <= |out| + 1
    requires |more| == |out| + 1 ==> BestAt(more, moreKeys, |out|)
    ensures EachBest(more, moreKeys)
  {
    hide BestAt;
    forall i | 0 <= i < |out|
      ensures BestAt(more, moreKeys, i)
    {
      BestAtPrefix(out, more, keys, moreKeys, i);
    }
  }

  /** A worker over the keys it generates: every report improves on everything seen before it, the last one
      is the best so far, and the counts of the reports add up to the keys tried. */
  method DoKeys(generated: seq<Key>) returns (out: seq<KeySet>, best: Key, pending: nat)
    ensures IsBest(best, WORST_KEY, generated)
    ensures Tries(out) + pending == |generated|
    ensures best == if out == [] then WORST_KEY else out[|out| - 1].pub
    ensures Improving(out) && EachBest(out, generated)
  {
    hide LexLess, EachBest;
    EachBestNone(generated[..0]);
    best := WORST_KEY;
    pending := 0;
    out := [];
    for i := 0 to |generated|
      invariant IsBest(best, WORST_KEY, generated[..i])
      invariant Tries(out) + pending == i
      invariant best == if out == [] then WORST_KEY else out[|out| - 1].pub
      invariant Improving(out) && EachBest(out, generated[..i])
    {
      var pub := generated[i];
      pending := pending + 1;
      BestStep(best, WORST_KEY, generated[..i], pub);
      assert generated[..i + 1] == generated[..i] + [pub];
      var better := IsBetter(best, pub);
      if !better {
        EachBestMore(out, out, generated[..i], generated[..i + 1]);
        continue;
      }
      NewReport(out, generated[..i + 1], KeySet(pub, pending));
      EachBestMore(out, out + [KeySet(pub, pending)], generated[..i], generated[..i + 1]);
      assert Improving(out + [KeySet(pub, pending)]) by {
        forall i | 0 <= i < |out| - 1 {
          Transitive(pub, best, out[i].pub);
        }
      }
      best := pub;
      out := out + [KeySet(pub, pending)];
      TriesAppend(out[..|out| - 1], KeySet(pub, pending));
      pending := 0;
    }
    assert generated == generated[..|generated|];
  }

  lemma EachBestNone(keys: seq<Key>)
    ensures EachBest([], keys)
  {
  }

  lemma NewReport(out: seq<KeySet>, keys: seq<Key>, k: KeySet)
    requires Tries(out) + k.count == |keys| && IsBest(k.pub, WORST_KEY, keys)
    ensures BestAt(out + [k], keys, |out|)
  {
    TriesAppend(out, k);
    hide AtMost;
    assert (out + [k])[..|out| + 1] == out + [k];
  }

  lemma BestStep(best: Key, start: Key, keys: seq<Key>, k: Key)
    requires IsBest(best, start, keys)
    ensures IsBest(if LexLess(k, best) then k else best, start, keys + [k])
  {
    Trichotomy(k, best);
    if LexLess(k, best) {
      forall x | x == start || x in keys
        ensures AtMost(k, x)
      {
        if best != x {
          Transitive(k, best, x);
        }
      }
    }
  }

  /** The collector over the reports of all workers keeps the best key it has received. */
  method Collect(reports: seq<KeySet>) returns (currentBest: seq<Byte>)
    ensures reports == [] ==> currentBest == []
    ensures reports != [] ==> |currentBest| == KEY_SIZE
    ensures reports != [] ==> exists i | 0 <= i < |reports| :: reports[i].pub == currentBest
    ensures reports != [] ==> forall i | 0 <= i < |reports| :: AtMost(currentBest, reports[i].pub)
  {
    currentBest := [];
    for n := 0 to |reports|
      invariant n == 0 ==> currentBest == []
      invariant n > 0 ==> |currentBest| == KEY_SIZE
      invariant n > 0 ==> exists i | 0 <= i < n :: reports[i].pub == currentBest
      invariant n > 0 ==> forall i | 0 <= i < n :: AtMost(currentBest, reports[i].pub)
    {
      var pub := reports[n].pub;
      var better := IsBetter(currentBest, pub);
      if better || |currentBest| == 0 {
        forall i | 0 <= i < n
          ensures AtMost(pub, reports[i].pub)
        {
          if currentBest != reports[i].pub {
            Transitive(pub, currentBest, reports[i].pub);
          }
        }
        currentBest := pub;
      } else {
        Trichotomy(pub, currentBest);
      }
    }
  }

  /** Once the collector has received the first `m` reports of a worker, among those of others, none of the keys
      that the worker had tried by then is better than the collector's. */
  lemma CollectorBeatsTries(generated: seq<Key>, out: seq<KeySet>, m: nat, reports: seq<KeySet>, best: Key, j: nat)
    requires EachBest(out, generated) && 0 < m <= |out| && out[m - 1] in reports
    requires forall i | 0 <= i < |reports| :: AtMost(best, reports[i].pub)
    requires j < Tries(out[..m]) && j < |generated|
    ensures AtMost(best, generated[j])
  {
    assert BestAt(out, generated, m - 1);
    var r := out[m - 1].pub;
    assert AtMost(best, r) && AtMost(r, generated[j]);
    if best != r && r != generated[j] {
      Transitive(best, r, generated[j]);
    }
  }

  // ----- Better keys have higher addresses -----

  /** `a` has a zero bit where `b` first has a one. */
  ghost predicate BitLessAt(a: seq<Byte>, b: seq<Byte>, d: nat)
    requires |a| == |b| && d < 8 * |a|
  {
    !BitAt(a, d) && BitAt(b, d) && forall j | 0 <= j < d :: BitAt(a, j) == BitAt(b, j)
  }

  lemma BitsToBytes(a: seq<Byte>, b: seq<Byte>, d: nat)
    requires |a| == |b| && d < 8 * |a| && BitLessAt(a, b, d)
    ensures LexLess(a, b)
  {
    var k := d / 8;
    forall i | 0 <= i < k
      ensures a[i] == b[i]
    {
      forall t | 0 <= t < 8
        ensures Bit(a[i], t) == Bit(b[i], t)
      {
        assert BitAt(a, 8 * i + t) == BitAt(b, 8 * i + t);
      }
      ByteExtensional(a[i], b[i]);
    }
    forall t | 0 <= t < d % 8
      ensures Bit(a[k], t) == Bit(b[k], t)
    {
      assert BitAt(a, 8 * k + t) == BitAt(b, 8 * k + t);
    }
    OrderAtDifference(a[k], b[k], d % 8);
    assert LessAt(a, b, k);
  }

  lemma BytesToBits(a: seq<Byte>, b: seq<Byte>) returns (d: nat)
    requires |a| == |b| && LexLess(a, b)
    ensures d < 8 * |a| && BitLessAt(a, b, d)
  {
    var k :| 0 <= k < |b| && LessAt(a, b, k);
    ByteOrder(a[k], b[k]);
    var t :| 0 <= t < 8 && !Bit(a[k], t) && Bit(b[k], t) && forall j | 0 <= j < t :: Bit(a[k], j) == Bit(b[k], j);
    d := 8 * k + t;
  }

  /** A better key's address is at least as high, although whole bytes are cut off; only the zero key, whose
      run length wraps to zero, can fall below, and it does so below every address but its own. */
  lemma BetterKeyHigherAddress(oldPub: Key, newPub: Key)
    requires LexLess(newPub, oldPub)
    ensures AddrOf(newPub) == AddrOf(oldPub) || LexLess(AddrOf(oldPub), AddrOf(newPub))
       <==> newPub != ZERO_KEY || forall j | 0 <= j < 113 :: BitAt(oldPub, j)
  {
    var d := BytesToBits(newPub, oldPub);
    ZeroKeyLead(newPub);
    if newPub == ZERO_KEY {
      AboveZeroAddress(oldPub);
    } else if Lead(oldPub) == d {
      LongerRun(oldPub, newPub, d);
    } else {
      SameRun(oldPub, newPub, d);
    }
  }

  lemma LongerRun(oldPub: Key, newPub: Key, d: nat)
    requires d < 256 && BitLessAt(newPub, oldPub, d) && Lead(oldPub) == d && Lead(newPub) < 256
    ensures LexLess(AddrOf(oldPub), AddrOf(newPub))
  {
    RunBeyond(oldPub, newPub, d);
    hide AddrOf, Lead, BitLessAt;
    RunByte(oldPub);
    RunByte(newPub);
    ByteValueOrder(AddrOf(oldPub)[1], AddrOf(newPub)[1]);
    assert LessAt(AddrOf(oldPub), AddrOf(newPub), 1);
  }

  lemma RunBeyond(oldPub: Key, newPub: Key, d: nat)
    requires d < 256 && BitLessAt(newPub, oldPub, d) && Lead(oldPub) == d && Lead(newPub) < 256
    ensures Lead(newPub) > d
  {
    var n := Lead(newPub);
    hide Lead;
    LeadBit(newPub);
    LeadBit(oldPub);
  }

  lemma LeadBit(k: Key)
    requires Lead(k) < 256
    ensures BitAt(k, Lead(k)) && forall j | 0 <= j < Lead(k) :: !BitAt(k, j)
  {
  }

  lemma ByteValueOrder(b: Byte, c: Byte)
    ensures b < c <==> b as nat < c as nat
  {
  }

  lemma SameRun(oldPub: Key, newPub: Key, d: nat)
    requires d < 256 && BitLessAt(newPub, oldPub, d) && Lead(oldPub) != d
    ensures AddrOf(newPub) == AddrOf(oldPub) || LexLess(AddrOf(oldPub), AddrOf(newPub))
  {
    var n := Lead(oldPub);
    SameLead(oldPub, newPub, d);
    assert !BitAt(newPub, d) && BitAt(oldPub, d);
    RunByte(oldPub);
    RunByte(newPub);
    var a, b := AddrOf(oldPub), AddrOf(newPub);
    ByteValueInjective(a[1], b[1]);
    var t := d - n - 1;
    hide AddrOf, Lead;
    forall j | 0 <= j < 112
      ensures j < t ==> TailBit(a, j) == TailBit(b, j)
      ensures 8 * ((255 - n) / 8) <= j ==> TailBit(a, j) == TailBit(b, j)
      ensures j == t < 8 * ((255 - n) / 8) ==> !TailBit(a, j) && TailBit(b, j)
    {
      SameRunTail(oldPub, newPub, d, j);
    }
    hide BitAt, BitLessAt;
    if t < 112 && t < 8 * ((255 - n) / 8) {
      TailOrder(a, b, t);
    } else {
      SameAddress(a, b);
    }
  }

  lemma SameRunTail(oldPub: Key, newPub: Key, d: nat, j: nat)
    requires d < 256 && BitLessAt(newPub, oldPub, d) && !BitAt(newPub, d) && BitAt(oldPub, d)
             && Lead(newPub) == Lead(oldPub) < d && j < 112
    ensures j < d - Lead(oldPub) - 1 ==> TailBit(AddrOf(oldPub), j) == TailBit(AddrOf(newPub), j)
    ensures 8 * ((255 - Lead(oldPub)) / 8) <= j ==> TailBit(AddrOf(oldPub), j) == TailBit(AddrOf(newPub), j)
    ensures j == d - Lead(oldPub) - 1 < 8 * ((255 - Lead(oldPub)) / 8) ==>
              !TailBit(AddrOf(oldPub), j) && TailBit(AddrOf(newPub), j)
  {
    hide AddrOf, Lead, TailBit, BitAt;
    AddressBit(oldPub, j);
    AddressBit(newPub, j);
    if Lead(oldPub) + 1 + j < d {
      assert BitAt(newPub, Lead(oldPub) + 1 + j) == BitAt(oldPub, Lead(oldPub) + 1 + j);
    }
    hide BitLessAt;
  }

  lemma SameLead(oldPub: Key, newPub: Key, d: nat)
    requires d < 256 && BitLessAt(newPub, oldPub, d) && Lead(oldPub) != d
    ensures Lead(newPub) == Lead(oldPub) < d
  {
    var n := Lead(oldPub);
    assert n < d;
    LeadUnique(newPub, n);
  }

  lemma TailOrder(a: Address, b: Address, t: nat)
    requires a[0] == b[0] && a[1] == b[1] && t < 112
    requires forall j | 0 <= j < t :: TailBit(a, j) == TailBit(b, j)
    requires !TailBit(a, t) && TailBit(b, t)
    ensures LexLess(a, b)
  {
    forall j | 0 <= j < 16 + t
      ensures BitAt(a, j) == BitAt(b, j)
    {
      assert j >= 16 ==> TailBit(a, j - 16) == TailBit(b, j - 16);
    }
    BitsToBytes(a, b, 16 + t);
  }

  /** The zero key has the lowest address of all, shared with the keys that start with 113 ones. */
  lemma AboveZeroAddress(k: Key)
    requires k != ZERO_KEY
    ensures !LexLess(AddrOf(k), AddrOf(ZERO_KEY))
    ensures AddrOf(ZERO_KEY) == AddrOf(k) <==> forall j | 0 <= j < 113 :: BitAt(k, j)
  {
    ZeroKeyLead(k);
    ZeroKeyLead(ZERO_KEY);
    RunByte(k);
    RunByte(ZERO_KEY);
    var z, a := AddrOf(ZERO_KEY), AddrOf(k);
    ByteValueInjective(z[1], a[1]);
    NothingBelowZero(a);
    hide AddrOf, Lead;
    forall j | 0 <= j < 112
      ensures !TailBit(z, j)
      ensures a[1] == z[1] ==> (TailBit(a, j) <==> !BitAt(k, j + 1))
    {
      AddressBit(ZERO_KEY, j);
      AddressBit(k, j);
    }
    hide TailBit;
    if forall j | 0 <= j < 113 :: BitAt(k, j) {
      assert Lead(k) == 0 by {
        assert BitAt(k, 0);
        LeadUnique(k, 0);
      }
      SameAddress(a, z);
    }
    if a == z {
      forall j | 0 <= j < 113
        ensures BitAt(k, j)
      {
        if j == 0 {
          FirstBit(k);
        } else {
          assert !TailBit(a, j - 1);
        }
      }
    }
  }

  lemma FirstBit(k: Key)
    requires Lead(k) == 0
    ensures BitAt(k, 0)
  {
  }

  lemma NothingBelowZero(a: Address)
    requires a[0] == PREFIX
    ensures !LexLess(a, AddrOf(ZERO_KEY))
  {
    var z := AddrOf(ZERO_KEY);
    ZeroKeyLead(ZERO_KEY);
    RunByte(ZERO_KEY);
    ByteValueInjective(z[1], 0);
    forall i | 1 <= i < 16
      ensures z[i] == 0
    {
      if i > 1 {
        AddressByte(ZERO_KEY, i - 2);
      }
    }
    hide AddrOf;
  }
}
