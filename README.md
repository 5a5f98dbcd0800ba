# SplitCollector: share collection and merge

This project models how MongoDB's erasure-coding replication gathers the
shares of a split value. The code is `SplitCollector` in
`src/mongo/db/repl/ec_split_collector.cpp`.

A collector runs on member `self` of an `n`-member replica set. It visits
every other member id in ascending order. For each peer it builds a point
lookup `{query: {<_id element>}}` and the projection
`{splits: {$arrayElemAt: ["$splits", memId]}}`, then reads the peer's reply.

- If the reply record has a `splits` field, element 0 of that array must be
  BinData. It is appended to `_splits` together with the peer's member id.
- If the record has no `splits` field, the peer is skipped.
- A second record in the batch, a non-array `splits`, or a non-BinData
  element 0 ends the process, since `collect` is `noexcept`.

After the loop, `_toBSON` appends the local share (element 0 of the local
document's own `splits`, which must be BinData) paired with `self`. It then
replaces the value of the first `splits` field with the array of
`[share, memberId]` pairs in accumulation order. Every other field keeps its
name, value and position.

Files:

- `wrappers.dfy`: `Option`.
- `bson.dfy`: documents as ordered lists of (name, value) pairs, with a
  first-match field lookup (`getField`, `findFirstChildNamed`) and an in-place
  value replacement (`setValueArray`).
- `ec_split_collector.dfy`:
  - the query builders;
  - the reply classification done by the query callback;
  - the pure specifications `CollectPeers` (the peer loop) and `MergeSplits`
    (`_toBSON`);
  - the class `SplitCollector`, whose methods `Collect`, `QueryPeers` and
    `ToBSON` are loops proved against those specifications.
- `ec_split_collector_props.dfy`: lemmas about the specifications (order,
  completeness, where the run stops, distinct origins, full reachability).

Modelling choices:

- **Replies.** Peer `m`'s reply is the input `replies[m]`, the records of the
  first batch of its lookup. An empty batch leaves `qresult` empty, which has
  no `splits` field, so the peer is skipped as the source does.
- **Fatal conditions.** These become the result
  `Aborted(Failure(origin, fault))`. The process ends before `*_out` is
  written, so `out` is unchanged on that path.
- **`_splits` persists across calls.** The field is never cleared, so a
  second `collect` on the same object merges on top of the first. The
  contracts of `Collect` and `ToBSON` are therefore stated against
  `old(splits)`.
- **Projection index.** The projection built for a peer uses that peer's
  own `memId` as the array position (ec_split_collector.cpp:67). It is never
  sent (see the next point), so no peer is asked for any particular slot: the
  peer returns its whole record, and the code takes element 0 of that
  record's `splits` array.
- **Projection is never sent.** The projection is built on every iteration,
  but the query call passes `nullptr` as fields-to-return (line 112), so it
  plays no part in what the peer returns. Each issued lookup (`Request`)
  records the projection value current at that point. The contract of
  `Projection` gives that value's meaning under `ApplyProjection`, a
  simplified reading of the server's `$arrayElemAt` projection.

## Model

| member | source | states |
|---|---|---|
| Bson.FindField | src/mongo/db/repl/ec_split_collector.cpp:132-133 | the position returned holds the name and no earlier field does; None exactly when no field has the name (first-match lookup, as findFirstChildNamed) |
| Bson.GetField | src/mongo/db/repl/ec_split_collector.cpp:83-89 | present exactly when the field exists, and then it is the value of the first field of that name |
| Bson.SetValueAt | src/mongo/db/repl/ec_split_collector.cpp:137-143 | the field at the position keeps its name and gets the new value; every other field and the length are unchanged |
| EcSplitCollector.MakeFindQuery | src/mongo/db/repl/ec_split_collector.cpp:47-51 | the filter of the built query is the `_id` element alone, and the lookup matches a record exactly when the record's field of the `_id` name holds the local `_id` value |
| EcSplitCollector.Projection | src/mongo/db/repl/ec_split_collector.cpp:65-67 | for every record, the projection for `memId` yields `{splits: arr[memId]}` when the record's `splits` is an array longer than `memId`, and nothing otherwise |
| EcSplitCollector.ExtractShare | src/mongo/db/repl/ec_split_collector.cpp:76-108 | more than one record is fatal; an empty batch or a record without `splits` yields no share; a non-array `splits` is fatal; a non-BinData element 0 is fatal with that fault; a share is produced exactly when element 0 is BinData, and it is that element |
| EcSplitCollector.PeerResults | src/mongo/db/repl/ec_split_collector.cpp:57-109 | one classified reply per member id; for every peer it is what the query callback makes of that peer's reply batch |
| EcSplitCollector.CollectPeers | src/mongo/db/repl/ec_split_collector.cpp:57-114 | the peer loop after member ids below `k`, one `VisitPeer` step per member id other than `self` until a fatal reply: no more entries than lookups and no more lookups than `k`, and a fatal stop is always at a peer below `k`; its order, skip, share and stop properties are the lemmas of `EcSplitCollectorProps` |
| EcSplitCollector.MergeSplits | src/mongo/db/repl/ec_split_collector.cpp:126-143 | fails exactly when the local `splits` is missing, not an array, or has a non-BinData element 0, and merges exactly when `splits` is an array whose element 0 is BinData; then the entries are the collected ones plus `[own, self]` last, the first `splits` field holds their encoding, it reads back as exactly those entries, and every other field is unchanged |
| EcSplitCollector.EncodeSplits | src/mongo/db/repl/ec_split_collector.cpp:138-141 | one `[share, memberId]` element per entry, at the entry's position; `DecodeEncodeSplits` reads it back |
| EcSplitCollector.DecodeEncodeSplits | src/mongo/db/repl/ec_split_collector.cpp:138-142 | reading back the array of `[share, memberId]` pairs gives the entries, in order |
| EcSplitCollector.FailureIsFinal | src/mongo/db/repl/ec_split_collector.cpp:53-117 | once a fatal reply has stopped the loop, later member ids add no lookup, entry or failure |
| EcSplitCollector.SplitCollector.constructor | src/mongo/db/repl/ec_split_collector.cpp:16-26 | records `n`, `self`, the `_id` element and the document; `_splits` starts empty |
| EcSplitCollector.SplitCollector.QueryPeers | src/mongo/db/repl/ec_split_collector.cpp:57-114 | the lookups issued, the entries collected and the fatal stop are those of the peer-loop specification `CollectPeers` |
| EcSplitCollector.SplitCollector.ToBSON | src/mongo/db/repl/ec_split_collector.cpp:119-144 | the new document and `_splits` are those of `MergeSplits` on the old ones; on a local fault, the document and `_splits` are unchanged |
| EcSplitCollector.SplitCollector.Collect | src/mongo/db/repl/ec_split_collector.cpp:53-117 | the new lookups, `_splits` and document are those of the peer loop followed by the merge; a fatal peer reply aborts with the document unchanged |
| EcSplitCollectorProps.PeerIdsOrdered | src/mongo/db/repl/ec_split_collector.cpp:57-59 | the visiting order is strictly ascending, holds exactly the ids below `k` other than `self`, and has `k - 1` of them when `self < k` |
| EcSplitCollectorProps.CollectQueriesPeersInOrder | src/mongo/db/repl/ec_split_collector.cpp:57-75 | the lookup targets are exactly the ascending peer ids up to the stop (never `self`), and each lookup uses the `_id` filter and records the `_projection` value built for its target (never sent) |
| EcSplitCollectorProps.CollectEntriesAreShares | src/mongo/db/repl/ec_split_collector.cpp:83-108 | every entry comes from a peer before the stop, not `self`, whose reply was that share; origins strictly ascend; every sharing peer before the stop has an entry; peers without `splits` leave none |
| EcSplitCollectorProps.EveryPeerSharesEntries | src/mongo/db/repl/ec_split_collector.cpp:83-101 | when every visited peer shares, the loop does not fail and the entry origins equal the lookup targets |
| EcSplitCollectorProps.CollectStopsAtFirstFatalReply | src/mongo/db/repl/ec_split_collector.cpp:78-97 | the loop fails exactly when some peer's reply is fatal, and then at the first such peer with that fault |
| EcSplitCollectorProps.MergedSplitsInvariant | src/mongo/db/repl/ec_split_collector.cpp:129-142 | after a completed run with a BinData local share, the merged field reads back as the peer entries followed by `[own, self]`, there are at most `n` entries, origins are below `n` and pairwise distinct |
| EcSplitCollectorProps.FullReachability | src/mongo/db/repl/ec_split_collector.cpp:57-59 | when every peer shares and the local share is BinData, the run does not fail, the origins are the ascending peer ids followed by `self`, there are exactly `n` entries, and every id below `n` occurs |

## Left out

- `_connect` (lines 30-45) is network I/O. The model assumes every connection succeeds. As written, after one failed `connect` the loop only calls `checkConnection()` and never reassigns `connectStatus`, so it would spin forever.
- The query call, its cursor options (line 113) and the batch iterator are transport. They are replaced by the input `replies[m]`, the first reply batch. Any later batches of the exhaust cursor are not modelled.
- The `_mutex` guard (lines 99-101) is not modelled. The callback runs synchronously inside the loop, so the append is a plain sequence append.
- `QueryPeers` hands back the entries and `Collect` appends them to `_splits` after the loop, rather than one at a time inside the callback. Nothing observes `_splits` in between.
- `LOGV2` calls are left out; they only log.
- BSON byte encoding and the `mutablebson::Document` tree are left out. The document is an ordered field list, and the net effect of `popBack()` followed by `setValueArray` (lines 137-142) is modelled as replacing the field's value.
- Indexing `arr[0]` of an empty array (lines 95, 97 and 128) is undefined behaviour in the source. The model states non-empty `splits` arrays as a precondition: `ReplyDefined`, `PeersDefined` and `NonEmptySplits`. `Collect` and `QueryPeers` ask it of every peer's reply, including replies after the first fatal one that the source never reads. `Collect` also asks it of the local document when a peer's fatal reply ends the run before `_toBSON`.
- The constructor's `getObjectID` and the `ReplicationCoordinator` queries (`getMemberData`, `getSelfIndex`, host and port) are external. They become the inputs `n`, `self` and `oidElem`.
- `ApplyProjection` is a simplified reading of the server's projection: a missing `splits` is omitted rather than projected as null, a non-array `splits` is omitted rather than raising an error, and `_id` is not kept. The contract of `Projection` is stated under that reading. The projection is never sent (line 112), so what a peer returns does not depend on it.
- Int32 values are unbounded integers in the model. Member ids are small, so no 32-bit wrap-around is modelled.
- BSONElement lifetimes are not modelled. The source keeps elements that point into reply objects which the cursor may have released.
