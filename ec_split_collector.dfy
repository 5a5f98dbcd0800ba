/**
 * The share collect-and-merge of SplitCollector (src/mongo/db/repl/ec_split_collector.cpp).
 *
 * A collector runs on member `self` of an `n`-member replica set.  It looks up,
 * on every other member in ascending member-id order, the record whose `_id`
 * is the local document's, takes element 0 of the `splits` array of the reply
 * (which must be BinData) and remembers it with the peer's member id.  It then
 * adds its own share, element 0 of the local `splits` array, paired with
 * `self`, and replaces the value of the local `splits` field by the array of
 * `[share, memberId]` pairs in that order.
 *
 * The network is abstracted: the first reply batch of peer m's lookup is the
 * input `replies[m]`.  Fatal conditions (the `invariant` on the batch, the
 * `Array()` user assertion and `checkBSONType`, all inside the noexcept
 * `collect`) end the run with `Aborted`.
 */
module EcSplitCollector {
  import opened Wrappers
  import opened Bson

  const SplitsFieldName: string := "splits"
  const QueryFieldName: string := "query"
  const ArrayElemAtOp: string := "$arrayElemAt"

  /** The records of the first reply batch of one point lookup. */
  type Batch = seq<Document>

  /** One collected share and the member id it came from (an element of `_splits`). */
  datatype Entry = Entry(share: Value, origin: nat)

  datatype Origin = Peer(memId: nat) | Local

  /** The conditions that terminate `collect`. */
  datatype Fault =
    | TooManyRecords    // invariant(!i.moreInCurrentBatch())
    | SplitsMissing     // getField on the local document found no `splits`
    | SplitsNotArray    // BSONElement::Array() on a non-array
    | ShareNotBinData   // checkBSONType(BinData, arr[0])

  datatype Failure = Failure(at: Origin, fault: Fault)

  datatype Status = Completed | Aborted(failure: Failure)

  /**
   * What the collector does with one peer: the target member, the find
   * filter, and the value `_projection` holds when the query is issued.
   * The query call passes `nullptr` as fields-to-return, so the projection
   * is not part of what the server evaluates.
   */
  datatype Request = Request(target: nat, filter: Document, projection: Document)

  /** How one peer's reply is classified by the query callback. */
  datatype PeerResult = NoShare | Share(share: Value) | Fatal(fault: Fault)

  // ---------------------------------------------------------------------
  // Query construction

  /** The filter of a find command: the `query` sub-document if there is one. */
  function FilterOf(query: Document): Document {
    match GetField(query, QueryFieldName)
    case Some(Object(fs)) => fs
    case _ => query
  }

  /** Equality point lookup: a record matches when it has every filter field's value. */
  predicate Matches(query: Document, rec: Document) {
    forall j :: 0 <= j < |FilterOf(query)| ==>
      GetField(rec, FilterOf(query)[j].name) == Some(FilterOf(query)[j].value)
  }

  /**
   * `_makeFindQuery`: `{query: {<the _id element>}}`.  The filter is the
   * `_id` element alone, so the lookup matches exactly the records holding
   * the local `_id` value.
   */
  function MakeFindQuery(oidElem: Field): (r: Document)
    ensures FilterOf(r) == [oidElem]
    ensures forall rec :: Matches(r, rec) <==> GetField(rec, oidElem.name) == Some(oidElem.value)
  {
    var q := [Field(QueryFieldName, Object([oidElem]))];
    assert FindField(q, QueryFieldName) == Some(0);
    assert forall rec :: Matches(q, rec) <==> GetField(rec, oidElem.name) == Some(oidElem.value) by {
      forall rec ensures Matches(q, rec) <==> GetField(rec, oidElem.name) == Some(oidElem.value) {
        SingleFilterMatches(q, oidElem, rec);
      }
    }
    q
  }

  lemma SingleFilterMatches(q: Document, oidElem: Field, rec: Document)
    requires FilterOf(q) == [oidElem]
    ensures Matches(q, rec) <==> GetField(rec, oidElem.name) == Some(oidElem.value)
  {
    var filter := FilterOf(q);
    if GetField(rec, oidElem.name) == Some(oidElem.value) {
      assert forall j :: 0 <= j < |filter| ==> filter[j] == oidElem;
    } else {
      assert !(GetField(rec, filter[0].name) == Some(filter[0].value));
    }
  }

  /** The `splits` array of a document, when `splits` is present and an array. */
  function SplitsArray(d: Document): Option<seq<Value>> {
    match GetField(d, SplitsFieldName)
    case Some(Array(es)) => Some(es)
    case _ => None
  }

  /**
   * A simplified reading of one projected field `{$arrayElemAt: ["$g", k]}`:
   * Some(Some(v)) selects element k of the record's array g, Some(None) omits
   * the field (no such array, index out of range), None is any other shape.
   * The server differs where g is missing (it yields null) or not an array
   * (it raises an error); the reply is never projected anyway, since the
   * query passes no fields-to-return.
   */
  function EvalArrayElemAt(expr: Value, rec: Document): Option<Option<Value>> {
    if expr.Object? && |expr.fields| == 1 && expr.fields[0].name == ArrayElemAtOp
       && expr.fields[0].value.Array? && |expr.fields[0].value.elems| == 2
       && expr.fields[0].value.elems[0].Str? && expr.fields[0].value.elems[1].Int32?
    then
      var path := expr.fields[0].value.elems[0].s;
      var k := expr.fields[0].value.elems[1].n;
      if |path| > 0 && path[0] == '$' then
        match GetField(rec, path[1..])
        case Some(Array(es)) => if 0 <= k < |es| then Some(Some(es[k])) else Some(None)
        case _ => Some(None)
      else None
    else None
  }

  /**
   * A simplified reading of a projection made only of `$arrayElemAt` fields:
   * the selected fields, in order.  The server would also keep `_id`.
   */
  function ApplyProjection(proj: Document, rec: Document): Option<Document>
    decreases |proj|
  {
    if proj == [] then Some([])
    else match (EvalArrayElemAt(proj[0].value, rec), ApplyProjection(proj[1..], rec))
      case (Some(sel), Some(rest)) =>
        Some((if sel.Some? then [Field(proj[0].name, sel.value)] else []) + rest)
      case _ => None
  }

  /** The slot a projection for `memId` picks out of a record, under `ApplyProjection`. */
  function SlotOf(memId: nat, rec: Document): Document {
    if SplitsArray(rec).Some? && memId < |SplitsArray(rec).value|
    then [Field(SplitsFieldName, SplitsArray(rec).value[memId])]
    else []
  }

  /**
   * The projection built for peer `memId`:
   * `{splits: {$arrayElemAt: ["$splits", memId]}}`.  It selects position
   * `memId` of a record's `splits` array, and nothing when there is none.
   */
  function Projection(memId: nat): (r: Document)
    ensures forall rec :: ApplyProjection(r, rec) == Some(SlotOf(memId, rec))
  {
    var p := [Field(SplitsFieldName, ElemAtExpr(memId))];
    assert forall rec :: ApplyProjection(p, rec) == Some(SlotOf(memId, rec)) by {
      forall rec ensures ApplyProjection(p, rec) == Some(SlotOf(memId, rec)) {
        ElemAtSelectsSlot(memId, rec);
      }
    }
    p
  }

  function ElemAtExpr(memId: nat): Value {
    Object([Field(ArrayElemAtOp, Array([Str("$" + SplitsFieldName), Int32(memId)]))])
  }

  lemma ElemAtSelectsSlot(memId: nat, rec: Document)
    ensures ApplyProjection([Field(SplitsFieldName, ElemAtExpr(memId))], rec) == Some(SlotOf(memId, rec))
  {
    // ApplyProjection appends the (empty) projection of the remaining fields.
    var slot := SlotOf(memId, rec);
    assert slot + [] == slot;
  }

  // ---------------------------------------------------------------------
  // Reply classification (the query callback)

  /** `splits`, when present as an array, is non-empty: `arr[0]` is undefined otherwise. */
  predicate NonEmptySplits(d: Document) {
    SplitsArray(d).Some? ==> |SplitsArray(d).value| > 0
  }

  /** A reply batch on which the callback has defined behaviour. */
  predicate ReplyDefined(batch: Batch) {
    |batch| == 1 ==> NonEmptySplits(batch[0])
  }

  /**
   * The query callback: drain the batch (a second record trips the
   * invariant), then take element 0 of `splits` from the record, if the
   * field is there.
   */
  function ExtractShare(batch: Batch): (r: PeerResult)
    requires ReplyDefined(batch)
    ensures r == Fatal(TooManyRecords) <==> |batch| > 1
    ensures r.NoShare? <==> |batch| == 0 || (|batch| == 1 && !HasField(batch[0], SplitsFieldName))
    ensures r == Fatal(SplitsNotArray) <==>
      |batch| == 1 && HasField(batch[0], SplitsFieldName) && SplitsArray(batch[0]).None?
    ensures r.Share? <==>
      |batch| == 1 && SplitsArray(batch[0]).Some? && SplitsArray(batch[0]).value[0].BinData?
    ensures r == Fatal(ShareNotBinData) <==>
      |batch| == 1 && SplitsArray(batch[0]).Some? && !SplitsArray(batch[0]).value[0].BinData?
    ensures r.Share? ==> r.share == SplitsArray(batch[0]).value[0]
  {
    if |batch| > 1 then Fatal(TooManyRecords)
    else
      var qresult: Document := if |batch| == 1 then batch[0] else [];
      match GetField(qresult, SplitsFieldName)
      case None => NoShare
      case Some(v) =>
        if !v.Array? then Fatal(SplitsNotArray)
        else if v.elems[0].BinData? then Share(v.elems[0])
        else Fatal(ShareNotBinData)
  }

  // ---------------------------------------------------------------------
  // Specification of the peer loop (lines 57-114)

  /** The state of the peer loop: queries issued, entries collected, and a fatal stop. */
  datatype Progress = Progress(requests: seq<Request>, entries: seq<Entry>, failure: Option<Failure>)

  predicate PeersDefined(self: nat, replies: seq<Batch>) {
    forall m :: 0 <= m < |replies| && m != self ==> ReplyDefined(replies[m])
  }

  /** How the callback classifies each peer's reply; `self` is never queried. */
  function PeerResults(self: nat, replies: seq<Batch>): (rs: seq<PeerResult>)
    requires PeersDefined(self, replies)
    ensures |rs| == |replies|
    ensures forall m :: 0 <= m < |replies| && m != self ==> rs[m] == ExtractShare(replies[m])
    decreases |replies|
  {
    if replies == [] then []
    else
      var k := |replies| - 1;
      PeerResults(self, replies[..k]) + [if k == self then NoShare else ExtractShare(replies[k])]
  }

  /** One iteration for peer m: issue its lookup, then record its share or its fault. */
  function VisitPeer(p: Progress, oidElem: Field, m: nat, r: PeerResult): Progress {
    var req := Request(m, MakeFindQuery(oidElem), Projection(m));
    match r
    case NoShare => p.(requests := p.requests + [req])
    case Share(v) => p.(requests := p.requests + [req], entries := p.entries + [Entry(v, m)])
    case Fatal(f) => p.(requests := p.requests + [req], failure := Some(Failure(Peer(m), f)))
  }

  /** The peer loop after member ids 0 .. k-1 have been visited, given each peer's classified reply. */
  function CollectPeers(self: nat, oidElem: Field, results: seq<PeerResult>, k: nat): (r: Progress)
    requires k <= |results|
    ensures |r.entries| <= |r.requests| <= k
    ensures r.failure.Some? ==> r.failure.value.at.Peer? && r.failure.value.at.memId < k
    decreases k
  {
    if k == 0 then Progress([], [], None)
    else
      var p := CollectPeers(self, oidElem, results, k - 1);
      if p.failure.Some? || k - 1 == self then p
      else VisitPeer(p, oidElem, k - 1, results[k - 1])
  }

  // ---------------------------------------------------------------------
  // Specification of _toBSON (lines 119-144)

  /** The array element written for one entry: `[share, memberId]`. */
  function EncodeEntry(e: Entry): Value {
    Array([e.share, Int32(e.origin)])
  }

  /** The new `splits` array, in accumulation order. */
  function EncodeSplits(es: seq<Entry>): (r: seq<Value>)
    ensures |r| == |es|
    ensures forall i :: 0 <= i < |es| ==> r[i] == EncodeEntry(es[i])
    decreases |es|
  {
    if es == [] then [] else EncodeSplits(es[..|es| - 1]) + [EncodeEntry(es[|es| - 1])]
  }

  /** Reads back one `[share, memberId]` element. */
  function DecodeEntry(v: Value): Option<Entry> {
    if v.Array? && |v.elems| == 2 && v.elems[1].Int32? && v.elems[1].n >= 0
    then Some(Entry(v.elems[0], v.elems[1].n))
    else None
  }

  /** Reads back a merged `splits` array; None if any element has another shape. */
  function DecodeSplits(vs: seq<Value>): Option<seq<Entry>>
    decreases |vs|
  {
    if vs == [] then Some([])
    else match (DecodeSplits(vs[..|vs| - 1]), DecodeEntry(vs[|vs| - 1]))
      case (Some(init), Some(last)) => Some(init + [last])
      case _ => None
  }

  datatype Merged = Merged(doc: Document, splits: seq<Entry>) | MergeFailed(fault: Fault)

  /**
   * `_toBSON` applied to the local document `out` with `_splits == splits`:
   * the own share (element 0 of the local `splits`, BinData) is appended with
   * `self`, and the first `splits` field's value becomes the encoded entries.
   */
  function MergeSplits(out: Document, self: nat, splits: seq<Entry>): (r: Merged)
    requires NonEmptySplits(out)
    ensures r == MergeFailed(SplitsMissing) <==> !HasField(out, SplitsFieldName)
    ensures r == MergeFailed(SplitsNotArray) <==>
      HasField(out, SplitsFieldName) && SplitsArray(out).None?
    ensures r == MergeFailed(ShareNotBinData) <==>
      SplitsArray(out).Some? && !SplitsArray(out).value[0].BinData?
    ensures r.Merged? <==> SplitsArray(out).Some? && SplitsArray(out).value[0].BinData?
    ensures r.Merged? ==>
      var own := SplitsArray(out).value[0];
      var i := FindField(out, SplitsFieldName).value;
      own.BinData? && r.splits == splits + [Entry(own, self)] &&
      |r.doc| == |out| && r.doc[i] == Field(SplitsFieldName, Array(EncodeSplits(r.splits))) &&
      (forall j :: 0 <= j < |out| && j != i ==> r.doc[j] == out[j]) &&
      FindField(r.doc, SplitsFieldName) == Some(i) &&
      DecodeSplits(GetField(r.doc, SplitsFieldName).value.elems) == Some(r.splits)
  {
    match GetField(out, SplitsFieldName)
    case None => MergeFailed(SplitsMissing)
    case Some(v) =>
      if !v.Array? then MergeFailed(SplitsNotArray)
      else if !v.elems[0].BinData? then MergeFailed(ShareNotBinData)
      else
        var all := splits + [Entry(v.elems[0], self)];
        var i := FindField(out, SplitsFieldName).value;
        var doc := SetValueAt(out, i, Array(EncodeSplits(all)));
        assert forall j :: 0 <= j < i ==> doc[j].name != SplitsFieldName;
        DecodeEncodeSplits(all);
        Merged(doc, all)
  }

  /** Decoding the merged array gives back exactly the entries, in order. */
  lemma {:induction false} DecodeEncodeSplits(es: seq<Entry>)
    ensures DecodeSplits(EncodeSplits(es)) == Some(es)
    decreases |es|
  {
    if es != [] {
      var init := es[..|es| - 1];
      DecodeEncodeSplits(init);
      var vs := EncodeSplits(es);
      assert vs[..|vs| - 1] == EncodeSplits(init);
      assert init + [es[|es| - 1]] == es;
    }
  }

  // ---------------------------------------------------------------------
  // The collector object

  class SplitCollector {
    /** `members.size()` */
    const n: nat
    /** `_replCoord->getSelfIndex()` */
    const self: nat
    /** `_oidElem`, the local document's `_id` element */
    const oidElem: Field
    /** `*_out`, the caller's document */
    var out: Document
    /** `_splits` */
    var splits: seq<Entry>
    /** The point lookups issued so far, in order. */
    ghost var requests: seq<Request>

    constructor (n: nat, self: nat, oidElem: Field, out: Document)
      requires self < n
      ensures this.n == n && this.self == self && this.oidElem == oidElem && this.out == out
      ensures splits == [] && requests == []
    {
      this.n := n;
      this.self := self;
      this.oidElem := oidElem;
      this.out := out;
      splits := [];
      requests := [];
    }

    /**
     * `collect`: query every peer in ascending member-id order, append the
     * shares to `_splits`, then merge.  `replies[m]` is the first reply batch
     * of member m's lookup.
     */
    method Collect(replies: seq<Batch>) returns (st: Status)
      requires self < n && |replies| == n && PeersDefined(self, replies)
      requires NonEmptySplits(out)
      modifies this
      ensures var p := CollectPeers(self, oidElem, PeerResults(self, replies), n);
        requests == old(requests) + p.requests &&
        (p.failure.Some? ==> st == Aborted(p.failure.value) && out == old(out) &&
                             splits == old(splits) + p.entries) &&
        (p.failure.None? ==>
          match MergeSplits(old(out), self, old(splits) + p.entries)
          case Merged(doc, all) => st == Completed && out == doc && splits == all
          case MergeFailed(f) =>
            st == Aborted(Failure(Local, f)) && out == old(out) && splits == old(splits) + p.entries)
    {
      var failure, sent, collected := QueryPeers(replies);
      requests := requests + sent;
      splits := splits + collected;
      if failure.Some? {
        return Aborted(failure.value);
      }
      st := ToBSON();
    }

    /**
     * The peer loop of `collect` (lines 57-114): for each member id but
     * `self`, build the projection, issue the lookup and run the callback on
     * the reply.  Returns the lookups issued, the entries the callback
     * appends, and the fatal condition that ended the loop, if any.
     */
    method QueryPeers(replies: seq<Batch>) returns (failure: Option<Failure>, sent: seq<Request>, collected: seq<Entry>)
      requires self < n && |replies| == n && PeersDefined(self, replies)
      ensures CollectPeers(self, oidElem, PeerResults(self, replies), n) == Progress(sent, collected, failure)
    {
      ghost var results := PeerResults(self, replies);
      sent, collected := [], [];
      var memId: nat := 0;
      while memId < n
        invariant memId <= n
        invariant CollectPeers(self, oidElem, results, memId) == Progress(sent, collected, None)
      {
        if memId == self {
          memId := memId + 1;
          continue;
        }
        var projection := Projection(memId);
        sent := sent + [Request(memId, MakeFindQuery(oidElem), projection)];
        var r := ExtractShare(replies[memId]);
        assert r == results[memId];
        match r {
          case NoShare =>
          case Share(v) =>
            collected := collected + [Entry(v, memId)];
          case Fatal(f) =>
            failure := Some(Failure(Peer(memId), f));
            FailureIsFinal(self, oidElem, results, memId + 1, n);
            return;
        }
        memId := memId + 1;
      }
      failure := None;
    }

    /** `_toBSON`: append the own share and rewrite the `splits` field. */
    method ToBSON() returns (st: Status)
      requires NonEmptySplits(out)
      modifies this`out, this`splits
      ensures match MergeSplits(old(out), self, old(splits))
        case Merged(doc, all) => st == Completed && out == doc && splits == all
        case MergeFailed(f) => st == Aborted(Failure(Local, f)) && out == old(out) && splits == old(splits)
    {
      var local := GetField(out, SplitsFieldName);
      if local.None? {
        return Aborted(Failure(Local, SplitsMissing));
      }
      if !local.value.Array? {
        return Aborted(Failure(Local, SplitsNotArray));
      }
      var arr := local.value.elems;
      if !arr[0].BinData? {
        return Aborted(Failure(Local, ShareNotBinData));
      }
      splits := splits + [Entry(arr[0], self)];
      var field := FindField(out, SplitsFieldName).value;
      var bab: seq<Value> := [];
      var k := 0;
      while k < |splits|
        invariant k <= |splits|
        invariant bab == EncodeSplits(splits[..k])
      {
        assert splits[..k + 1][..k] == splits[..k];
        bab := bab + [EncodeEntry(splits[k])];
        k := k + 1;
      }
      assert splits[..k] == splits;
      out := SetValueAt(out, field, Array(bab));
      st := Completed;
    }
  }

  /** Once the peer loop has stopped on a fatal reply, later member ids change nothing. */
  lemma {:induction false} FailureIsFinal(self: nat, oidElem: Field, results: seq<PeerResult>, k: nat, k': nat)
    requires k <= k' <= |results|
    requires CollectPeers(self, oidElem, results, k).failure.Some?
    ensures CollectPeers(self, oidElem, results, k') == CollectPeers(self, oidElem, results, k)
    decreases k' - k
  {
    if k < k' {
      FailureIsFinal(self, oidElem, results, k, k' - 1);
    }
  }
}
