/**
 * Properties of the SplitCollector model: which peers are queried and in
 * what order, which peers contribute an entry, when the run stops, and the
 * shape of the merged `splits` field.
 */
module EcSplitCollectorProps {
  import opened Wrappers
  import opened Bson
  import opened EcSplitCollector

  /** The member ids 0 .. k-1 other than `self`, ascending: the order of the peer loop. */
  function PeerIds(self: nat, k: nat): seq<nat>
    decreases k
  {
    if k == 0 then [] else PeerIds(self, k - 1) + (if k - 1 == self then [] else [k - 1])
  }

  function Targets(rs: seq<Request>): seq<nat> {
    seq(|rs|, i requires 0 <= i < |rs| => rs[i].target)
  }

  function Origins(es: seq<Entry>): seq<nat> {
    seq(|es|, i requires 0 <= i < |es| => es[i].origin)
  }

  lemma OriginsAppend(es: seq<Entry>, e: Entry)
    ensures Origins(es + [e]) == Origins(es) + [e.origin]
  {
    assert forall i :: 0 <= i < |es| ==> (es + [e])[i] == es[i];
  }

  lemma TargetsAppend(rs: seq<Request>, r: Request)
    ensures Targets(rs + [r]) == Targets(rs) + [r.target]
  {
    assert forall i :: 0 <= i < |rs| ==> (rs + [r])[i] == rs[i];
  }

  /** The member id the peer loop stopped before: the fatal peer, or k. */
  function StopAt(p: Progress, k: nat): nat {
    if p.failure.Some? && p.failure.value.at.Peer? then p.failure.value.at.memId else k
  }

  // ---------------------------------------------------------------------
  // The peer loop

  lemma {:induction false} PeerIdsOrdered(self: nat, k: nat)
    ensures |PeerIds(self, k)| == if self < k then k - 1 else k
    ensures forall i, j :: 0 <= i < j < |PeerIds(self, k)| ==> PeerIds(self, k)[i] < PeerIds(self, k)[j]
    ensures forall m: nat :: m in PeerIds(self, k) <==> m < k && m != self
    decreases k
  {
    if k > 0 {
      PeerIdsOrdered(self, k - 1);
      var prev := PeerIds(self, k - 1);
      var cur := PeerIds(self, k);
      if k - 1 == self {
        assert cur == prev;
      } else {
        assert cur == prev + [k - 1];
        forall i | 0 <= i < |prev| ensures prev[i] < k - 1 {
          assert prev[i] in prev;
        }
        forall m: nat ensures m in cur <==> m < k && m != self {
          assert m in cur <==> m in prev || m == k - 1;
        }
      }
    }
  }

  /**
   * Every peer below the stopping point is queried exactly once, in ascending
   * order, `self` never; each lookup uses the `_id` filter and records the
   * `_projection` value built for its target (the query never sends it).
   */
  lemma {:induction false} CollectQueriesPeersInOrder(self: nat, oidElem: Field, results: seq<PeerResult>, k: nat)
    requires k <= |results|
    ensures var p := CollectPeers(self, oidElem, results, k);
      (p.failure.Some? ==>
         p.failure.value.at.Peer? && p.failure.value.at.memId < k && p.failure.value.at.memId != self &&
         Targets(p.requests) == PeerIds(self, p.failure.value.at.memId + 1)) &&
      (p.failure.None? ==> Targets(p.requests) == PeerIds(self, k)) &&
      (forall i :: 0 <= i < |p.requests| ==>
         p.requests[i].filter == MakeFindQuery(oidElem) &&
         p.requests[i].projection == Projection(p.requests[i].target))
    decreases k
  {
    if k > 0 {
      var q := CollectPeers(self, oidElem, results, k - 1);
      CollectQueriesPeersInOrder(self, oidElem, results, k - 1);
      var p := CollectPeers(self, oidElem, results, k);
      if q.failure.None? && k - 1 != self {
        var req := Request(k - 1, MakeFindQuery(oidElem), Projection(k - 1));
        assert p.requests == q.requests + [req];
        TargetsAppend(q.requests, req);
        forall i | 0 <= i < |p.requests|
          ensures p.requests[i].filter == MakeFindQuery(oidElem) &&
                  p.requests[i].projection == Projection(p.requests[i].target)
        {
          if i < |q.requests| {
            assert p.requests[i] == q.requests[i];
          }
        }
      }
    }
  }

  /**
   * The entries are the shares of the peers below the stopping point whose
   * reply carried `splits`, one each, in ascending member-id order; a peer
   * without the field leaves no entry and no placeholder.
   */
  lemma {:induction false} CollectEntriesAreShares(self: nat, oidElem: Field, results: seq<PeerResult>, k: nat)
    requires k <= |results|
    ensures var p := CollectPeers(self, oidElem, results, k);
      StopAt(p, k) <= k &&
      (forall i :: 0 <= i < |p.entries| ==>
         p.entries[i].origin < StopAt(p, k) && p.entries[i].origin != self &&
         results[p.entries[i].origin] == Share(p.entries[i].share)) &&
      (forall i, j :: 0 <= i < j < |p.entries| ==> p.entries[i].origin < p.entries[j].origin) &&
      (forall m: nat :: m < StopAt(p, k) && m != self && results[m].Share? ==> m in Origins(p.entries))
    decreases k
  {
    if k > 0 {
      var q := CollectPeers(self, oidElem, results, k - 1);
      CollectEntriesAreShares(self, oidElem, results, k - 1);
      var p := CollectPeers(self, oidElem, results, k);
      if q.failure.None? && k - 1 != self {
        assert p == VisitPeer(q, oidElem, k - 1, results[k - 1]);
        match results[k - 1]
        case NoShare =>
          assert p.entries == q.entries && StopAt(p, k) == k;
        case Fatal(f) =>
          assert p.entries == q.entries && StopAt(p, k) == k - 1;
        case Share(v) =>
          assert p.entries == q.entries + [Entry(v, k - 1)];
          OriginsAppend(q.entries, Entry(v, k - 1));
          forall m: nat | m < k && m != self && results[m].Share?
            ensures m in Origins(p.entries)
          {
            if m < k - 1 {
              assert m in Origins(q.entries);
            }
          }
      } else {
        assert p == q;
        assert q.failure.None? ==> StopAt(p, k) == k && StopAt(q, k - 1) == k - 1;
      }
    }
  }

  /** When every visited peer shares, the entries come exactly from the peers queried. */
  lemma {:induction false} EveryPeerSharesEntries(self: nat, oidElem: Field, results: seq<PeerResult>, k: nat)
    requires k <= |results|
    requires forall m :: 0 <= m < k && m != self ==> results[m].Share?
    ensures var p := CollectPeers(self, oidElem, results, k);
      p.failure.None? && Origins(p.entries) == Targets(p.requests)
    decreases k
  {
    if k > 0 {
      var q := CollectPeers(self, oidElem, results, k - 1);
      EveryPeerSharesEntries(self, oidElem, results, k - 1);
      if k - 1 != self {
        var p := CollectPeers(self, oidElem, results, k);
        assert p == VisitPeer(q, oidElem, k - 1, results[k - 1]);
        OriginsAppend(q.entries, Entry(results[k - 1].share, k - 1));
        TargetsAppend(q.requests, Request(k - 1, MakeFindQuery(oidElem), Projection(k - 1)));
      }
    }
  }

  /** The loop fails exactly when some peer's reply is fatal, and then at the first such peer. */
  lemma {:induction false} CollectStopsAtFirstFatalReply(self: nat, oidElem: Field, results: seq<PeerResult>, k: nat)
    requires k <= |results|
    ensures var p := CollectPeers(self, oidElem, results, k);
      (p.failure.None? <==> forall m :: 0 <= m < k && m != self ==> !results[m].Fatal?) &&
      (p.failure.Some? ==>
         p.failure.value.at.Peer? &&
         var m := p.failure.value.at.memId;
         m < k && m != self &&
         results[m] == Fatal(p.failure.value.fault) &&
         forall m' :: 0 <= m' < m && m' != self ==> !results[m'].Fatal?)
    decreases k
  {
    if k > 0 {
      CollectStopsAtFirstFatalReply(self, oidElem, results, k - 1);
    }
  }

  // ---------------------------------------------------------------------
  // The whole run on a fresh collector

  /**
   * After a completed run the merged `splits` field reads back as the peer
   * entries in accumulation order followed by `[own, self]`; there are at
   * most `n` of them and no member id occurs twice.
   */
  lemma MergedSplitsInvariant(out: Document, n: nat, self: nat, oidElem: Field, replies: seq<Batch>)
    requires self < n && |replies| == n && PeersDefined(self, replies) && NonEmptySplits(out)
    requires CollectPeers(self, oidElem, PeerResults(self, replies), n).failure.None?
    requires SplitsArray(out).Some? && SplitsArray(out).value[0].BinData?
    ensures var es := CollectPeers(self, oidElem, PeerResults(self, replies), n).entries;
      var r := MergeSplits(out, self, es);
      var all := r.splits;
      DecodeSplits(GetField(r.doc, SplitsFieldName).value.elems) == Some(all) &&
      all == es + [Entry(SplitsArray(out).value[0], self)] &&
      |all| <= n &&
      (forall i :: 0 <= i < |all| ==> all[i].origin < n) &&
      (forall i, j :: 0 <= i < j < |all| ==> all[i].origin != all[j].origin)
  {
    var rs := PeerResults(self, replies);
    var p := CollectPeers(self, oidElem, rs, n);
    CollectQueriesPeersInOrder(self, oidElem, rs, n);
    CollectEntriesAreShares(self, oidElem, rs, n);
    PeerIdsOrdered(self, n);
    assert |p.requests| == |Targets(p.requests)|;
    var own := Entry(SplitsArray(out).value[0], self);
    AppendOwnEntry(p.entries, own, n);
  }

  /** Appending an entry whose member id is new and below `n` keeps the ids distinct and below `n`. */
  lemma AppendOwnEntry(es: seq<Entry>, own: Entry, n: nat)
    requires own.origin < n
    requires forall i :: 0 <= i < |es| ==> es[i].origin < n && es[i].origin != own.origin
    requires forall i, j :: 0 <= i < j < |es| ==> es[i].origin < es[j].origin
    ensures var all := es + [own];
      (forall i :: 0 <= i < |all| ==> all[i].origin < n) &&
      (forall i, j :: 0 <= i < j < |all| ==> all[i].origin != all[j].origin)
  {
    var all := es + [own];
    forall i, j | 0 <= i < j < |all| ensures all[i].origin != all[j].origin {
      if j < |es| {
        assert all[i] == es[i] && all[j] == es[j];
      } else {
        assert all[i] == es[i] && all[j] == own;
      }
    }
  }

  /**
   * When every peer replies with a BinData share, the merged field holds
   * exactly one entry per member: the peers in ascending order, then self.
   */
  lemma FullReachability(out: Document, n: nat, self: nat, oidElem: Field, replies: seq<Batch>)
    requires self < n && |replies| == n && PeersDefined(self, replies) && NonEmptySplits(out)
    requires forall m :: 0 <= m < n && m != self ==> ExtractShare(replies[m]).Share?
    requires SplitsArray(out).Some? && SplitsArray(out).value[0].BinData?
    ensures var p := CollectPeers(self, oidElem, PeerResults(self, replies), n);
      var all := MergeSplits(out, self, p.entries).splits;
      p.failure.None? &&
      Origins(all) == PeerIds(self, n) + [self] &&
      |all| == n &&
      (forall m: nat :: m in Origins(all) <==> m < n)
  {
    var rs := PeerResults(self, replies);
    assert forall m :: 0 <= m < n && m != self ==> rs[m].Share?;
    var p := CollectPeers(self, oidElem, rs, n);
    EveryPeerSharesEntries(self, oidElem, rs, n);
    CollectQueriesPeersInOrder(self, oidElem, rs, n);
    PeerIdsOrdered(self, n);
    var all := MergeSplits(out, self, p.entries).splits;
    assert all == p.entries + [Entry(SplitsArray(out).value[0], self)];
    OriginsAppend(p.entries, Entry(SplitsArray(out).value[0], self));
    assert |all| == |Origins(all)|;
  }
}
