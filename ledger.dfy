/**
 * The replay ledger `KeyHolder::m_usedTokens`: a multimap from an epoch value
 * to the tokens accepted while that epoch was live. It is kept here as the
 * list of its entries; only its size, which keys it holds and which entries
 * it holds are ever observed, never their order.
 */
module UsedTokens {

  /** One entry of the ledger: the epoch value it is filed under and the accepted token. */
  datatype Entry = Entry(epoch: string, token: string)

  type Ledger = seq<Entry>

  /** `m_usedTokens.find(epoch) != m_usedTokens.end()`: some entry is filed under `epoch`. */
  function HasEpoch(l: Ledger, epoch: string): (found: bool)
    ensures found <==> exists e :: e in l && e.epoch == epoch
  {
    exists i :: 0 <= i < |l| && l[i].epoch == epoch
  }

  /** `m_usedTokens.remove(epoch)`: every entry filed under `epoch` is dropped. */
  function WithoutEpoch(l: Ledger, epoch: string): (r: Ledger)
    ensures forall x :: multiset(r)[x] == if x.epoch == epoch then 0 else multiset(l)[x]
    ensures forall x :: x in r <==> x in l && x.epoch != epoch
    ensures !HasEpoch(r, epoch)
    decreases |l|
  {
    if l == [] then []
    else
      var last := l[|l| - 1];
      assert l == l[..|l| - 1] + [last];
      WithoutEpoch(l[..|l| - 1], epoch) + (if last.epoch == epoch then [] else [last])
  }

  /** No two entries are filed under the same epoch value. */
  predicate OnePerEpoch(l: Ledger)
  {
    forall i, j :: 0 <= i < j < |l| ==> l[i].epoch != l[j].epoch
  }

  /** Every entry is filed under a non-empty epoch value that is current or previous. */
  predicate LiveEpochsOnly(l: Ledger, current: string, prev: string)
  {
    forall i :: 0 <= i < |l| ==> l[i].epoch != "" && (l[i].epoch == current || l[i].epoch == prev)
  }

  /**
   * The check `validateCaptchaAnswer` makes once a token matched `epoch`:
   * a matched (non-empty) epoch, a ledger not over its capacity, and no
   * entry yet under that epoch.
   */
  function Admits(l: Ledger, capacity: int, epoch: string): (ok: bool)
    ensures ok <==> epoch != "" && |l| <= capacity && forall e :: e in l ==> e.epoch != epoch
  {
    epoch != "" && |l| <= capacity && !HasEpoch(l, epoch)
  }

  /** Appending an entry under an epoch nobody uses yet keeps entries apart. */
  lemma AppendKeepsOnePerEpoch(l: Ledger, e: Entry)
    requires OnePerEpoch(l)
    requires forall i :: 0 <= i < |l| ==> l[i].epoch != e.epoch
    ensures OnePerEpoch(l + [e])
  {
    var r := l + [e];
    forall i, j | 0 <= i < j < |r|
      ensures r[i].epoch != r[j].epoch
    {
      if j < |l| {
        assert r[i] == l[i] && r[j] == l[j];
      } else {
        assert r[i] == l[i] && r[j] == e;
      }
    }
  }

  /** Dropping an epoch's entries keeps the others apart. */
  lemma {:induction false} WithoutEpochKeepsOnePerEpoch(l: Ledger, epoch: string)
    requires OnePerEpoch(l)
    ensures OnePerEpoch(WithoutEpoch(l, epoch))
    decreases |l|
  {
    if l != [] {
      var init, last := l[..|l| - 1], l[|l| - 1];
      assert OnePerEpoch(init);
      WithoutEpochKeepsOnePerEpoch(init, epoch);
      var rest := WithoutEpoch(init, epoch);
      if last.epoch != epoch {
        forall i | 0 <= i < |rest|
          ensures rest[i].epoch != last.epoch
        {
          assert rest[i] in init;
          var k :| 0 <= k < |init| && init[k] == rest[i];
          assert l[k] == init[k];
        }
        AppendKeepsOnePerEpoch(rest, last);
      }
    }
  }

  /**
   * A rotation keeps the ledger consistent with the epochs: once the entries
   * of the old previous epoch are dropped, the rest are filed under the old
   * current epoch, which becomes the previous one.
   */
  lemma PruneKeepsInvariant(l: Ledger, current: string, prev: string, next: string)
    requires LiveEpochsOnly(l, current, prev) && OnePerEpoch(l)
    ensures forall x :: x in WithoutEpoch(l, prev) ==> x.epoch == current
    ensures LiveEpochsOnly(WithoutEpoch(l, prev), next, current)
    ensures OnePerEpoch(WithoutEpoch(l, prev))
  {
    WithoutEpochKeepsOnePerEpoch(l, prev);
    var r := WithoutEpoch(l, prev);
    forall i | 0 <= i < |r|
      ensures r[i].epoch != "" && r[i].epoch == current
    {
      assert r[i] in l;
    }
  }

  /** An admitted entry under a live epoch keeps the ledger consistent with the epochs. */
  lemma AdmitKeepsInvariant(l: Ledger, capacity: int, epoch: string, token: string, current: string, prev: string)
    requires LiveEpochsOnly(l, current, prev) && OnePerEpoch(l)
    requires Admits(l, capacity, epoch) && (epoch == current || epoch == prev)
    ensures LiveEpochsOnly(l + [Entry(epoch, token)], current, prev)
    ensures OnePerEpoch(l + [Entry(epoch, token)])
  {
  }

  /**
   * Once an entry is filed under `epoch`, that epoch admits nothing more: the
   * same token cannot be used twice, and neither can any other token that
   * matches the same epoch, since the lookup is by epoch alone.
   */
  lemma OneAcceptancePerEpoch(l: Ledger, capacity: int, epoch: string, token: string)
    ensures !Admits(l + [Entry(epoch, token)], capacity, epoch)
  {
    assert (l + [Entry(epoch, token)])[|l|].epoch == epoch;
  }

  /** Entries filed one per epoch, all under epochs from `epochs`, are at most as many as `epochs`. */
  lemma {:induction false} OnePerEpochBound(l: Ledger, epochs: set<string>)
    requires OnePerEpoch(l)
    requires forall i :: 0 <= i < |l| ==> l[i].epoch in epochs
    ensures |l| <= |epochs|
    decreases |l|
  {
    if l != [] {
      var init, last := l[..|l| - 1], l[|l| - 1];
      forall i | 0 <= i < |init|
        ensures init[i].epoch in epochs - {last.epoch}
      {
        assert init[i] == l[i];
      }
      OnePerEpochBound(init, epochs - {last.epoch});
    }
  }

  /**
   * A ledger consistent with the two live epochs holds at most two entries,
   * and no more than there are non-empty live epochs: none before the first.
   */
  lemma LiveLedgerHoldsAtMostTwo(l: Ledger, current: string, prev: string)
    requires LiveEpochsOnly(l, current, prev) && OnePerEpoch(l)
    ensures |l| <= |{current, prev} - {""}| <= 2
  {
    OnePerEpochBound(l, {current, prev} - {""});
  }
}
