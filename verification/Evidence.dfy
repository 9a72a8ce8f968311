/**
 * The durable-evidence check of one campaign event. It walks the sent receipts
 * and looks at an outbox row only when a receipt names it; counting arguments
 * show that no row escapes.
 */
module Evidence {
  import opened Counting
  import opened Ordering
  import opened Results

  datatype Status = Queued | Sent | OtherStatus(name: string)
  datatype Origin = Live | OtherOrigin(name: string)
  datatype Direction = Outbound | OtherDirection(name: string)

  datatype Event = Event(id: string, sourceAdapter: string, sourceChannel: string)

  datatype Receipt = Receipt(
    status: Status,
    source: Origin,
    replayRun: Option<string>,
    outboxId: string,
    attempt: int,
    eventId: string,
    planId: string,
    targetAdapter: string,
    targetChannel: string,
    routeId: string,
    messageId: string)

  datatype OutboxRow = OutboxRow(
    id: string,
    status: Status,
    attempt: int,
    eventId: string,
    planId: string,
    targetAdapter: string,
    targetChannel: string,
    routeId: string,
    dispatchSource: Origin,
    replayRun: Option<string>)

  datatype NativeRef = NativeRef(direction: Direction, adapter: string, messageId: string)

  datatype Item = Item(event: Event, receipts: seq<Receipt>, outbox: seq<OutboxRow>, refs: seq<NativeRef>)

  /** `targets` maps each expected destination adapter to its conversation. */
  type Targets = map<string, string>

  predicate IsSent(r: Receipt) {
    r.status == Sent
  }

  function SentReceipts(item: Item): seq<Receipt> {
    Filter(IsSent, item.receipts)
  }

  function WithId(id: string): OutboxRow -> bool {
    (row: OutboxRow) => row.id == id
  }

  function Rows(item: Item, id: string): seq<OutboxRow> {
    Filter(WithId(id), item.outbox)
  }

  function ReceiptTargets(rs: seq<Receipt>): seq<string> {
    seq(|rs|, i requires 0 <= i < |rs| => rs[i].targetAdapter)
  }

  function RowTargets(rows: seq<OutboxRow>): seq<string> {
    seq(|rows|, i requires 0 <= i < |rows| => rows[i].targetAdapter)
  }

  function RowIds(rows: seq<OutboxRow>): seq<string> {
    seq(|rows|, i requires 0 <= i < |rows| => rows[i].id)
  }

  /** The one declared route between two adapters. */
  function Route(source: string, target: string): string {
    source + "_to_" + target
  }

  predicate LifecycleOk(r: Receipt, targets: Targets) {
    (r.status == Queued || r.status == Sent) && r.targetAdapter in targets && r.source == Live && r.replayRun.None?
  }

  /** What the loop demands of the row a receipt names. */
  predicate RowMatches(item: Item, source: string, targets: Targets, r: Receipt, row: OutboxRow) {
    && r.targetAdapter in targets
    && r.targetChannel == targets[r.targetAdapter]
    && row.status == Sent
    && row.attempt == r.attempt == 1
    && row.eventId == r.eventId == item.event.id
    && row.planId == r.planId
    && row.targetAdapter == r.targetAdapter
    && row.targetChannel == r.targetChannel
    && row.routeId == r.routeId == Route(source, row.targetAdapter)
    && row.dispatchSource == Live && row.replayRun.None?
    && (r.messageId != "" ==>
          exists i :: 0 <= i < |item.refs| && item.refs[i] == NativeRef(Outbound, row.targetAdapter, r.messageId))
  }

  predicate ReceiptOk(item: Item, source: string, targets: Targets, r: Receipt) {
    && r.status == Sent && r.source == Live && r.replayRun.None?
    && |Rows(item, r.outboxId)| == 1
    && RowMatches(item, source, targets, r, Rows(item, r.outboxId)[0])
  }

  /** `verify` raises no assertion error. */
  predicate Verify(item: Item, source: string, channel: string, targets: Targets) {
    && item.event.sourceAdapter == source
    && item.event.sourceChannel == channel
    && (forall i :: 0 <= i < |item.receipts| ==> LifecycleOk(item.receipts[i], targets))
    && |SentReceipts(item)| == |targets| && Elements(ReceiptTargets(SentReceipts(item))) == targets.Keys
    && |item.outbox| == |targets| && Elements(RowTargets(item.outbox)) == targets.Keys
    && (forall i :: 0 <= i < |SentReceipts(item)| ==> ReceiptOk(item, source, targets, SentReceipts(item)[i]))
  }

  // ----- The intended meaning -----------------------------------------------

  /** Receipt `i` and outbox row `j` document the same delivery. */
  predicate Documents(item: Item, source: string, targets: Targets, i: int, j: int) {
    && 0 <= i < |SentReceipts(item)|
    && 0 <= j < |item.outbox|
    && item.outbox[j].id == SentReceipts(item)[i].outboxId
    && RowMatches(item, source, targets, SentReceipts(item)[i], item.outbox[j])
  }

  ghost predicate ReceiptDocumented(item: Item, source: string, targets: Targets, i: int) {
    exists j :: Documents(item, source, targets, i, j)
  }

  ghost predicate RowDocumented(item: Item, source: string, targets: Targets, j: int) {
    exists i :: Documents(item, source, targets, i, j)
  }

  /**
   * One delivery per target: sent receipts and outbox rows each hit every target
   * exactly once, row ids are unique, and every receipt documents a row.
   */
  ghost predicate OneDeliveryPerTarget(item: Item, source: string, targets: Targets) {
    && Distinct(ReceiptTargets(SentReceipts(item))) && Elements(ReceiptTargets(SentReceipts(item))) == targets.Keys
    && Distinct(RowTargets(item.outbox)) && Elements(RowTargets(item.outbox)) == targets.Keys
    && Distinct(RowIds(item.outbox))
    && (forall i :: 0 <= i < |SentReceipts(item)| ==> ReceiptDocumented(item, source, targets, i))
  }

  lemma KeysSize(targets: Targets)
    ensures |targets.Keys| == |targets|
  {
  }

  lemma {:induction false} FilterTwo<T(!new)>(keep: T -> bool, s: seq<T>, j: nat, k: nat)
    requires j < k < |s| && keep(s[j]) && keep(s[k])
    ensures |Filter(keep, s)| >= 2
  {
    if j == 0 {
      assert s[1..][k - 1] == s[k] && s[k] in s[1..];
      assert s[k] in Filter(keep, s[1..]);
    } else {
      FilterTwo(keep, s[1..], j - 1, k - 1);
    }
  }

  lemma {:induction false} FilterOne<T(!new)>(keep: T -> bool, s: seq<T>, j: nat)
    requires j < |s| && keep(s[j])
    requires forall k :: 0 <= k < |s| && keep(s[k]) ==> k == j
    ensures Filter(keep, s) == [s[j]]
  {
    if j == 0 {
      NoneKept(keep, s[1..]);
    } else {
      FilterOne(keep, s[1..], j - 1);
    }
  }

  lemma NoneKept<T(!new)>(keep: T -> bool, s: seq<T>)
    requires forall k :: 0 <= k < |s| ==> !keep(s[k])
    ensures Filter(keep, s) == []
  {
    var kept := Filter(keep, s);
    assert forall x :: x in kept ==> x in s && keep(x);
    assert forall i :: 0 <= i < |kept| ==> kept[i] in kept;
  }

  /** A list of row targets without repeats pins down the row. */
  lemma RowByTarget(item: Item, j: nat, k: nat)
    requires j < |item.outbox| && k < |item.outbox| && Distinct(RowTargets(item.outbox))
    requires item.outbox[j].targetAdapter == item.outbox[k].targetAdapter
    ensures j == k
  {
    var ts := RowTargets(item.outbox);
    assert ts[j] == ts[k];
  }

  lemma ReceiptForTarget(item: Item, targets: Targets, t: string) returns (i: nat)
    requires Elements(ReceiptTargets(SentReceipts(item))) == targets.Keys && t in targets
    ensures i < |SentReceipts(item)| && SentReceipts(item)[i].targetAdapter == t
  {
    var ts := ReceiptTargets(SentReceipts(item));
    assert t in Elements(ts);
    i :| 0 <= i < |ts| && ts[i] == t;
  }

  /** The receipt for a row's target names that very row, and no other row has its id. */
  lemma RowIsReached(item: Item, source: string, channel: string, targets: Targets, j: nat) returns (i: nat)
    requires Verify(item, source, channel, targets) && j < |item.outbox| && Distinct(RowTargets(item.outbox))
    ensures Documents(item, source, targets, i, j) && |Rows(item, item.outbox[j].id)| == 1
  {
    var row := item.outbox[j];
    assert RowTargets(item.outbox)[j] in Elements(RowTargets(item.outbox));
    i := ReceiptForTarget(item, targets, row.targetAdapter);
    var r := SentReceipts(item)[i];
    assert ReceiptOk(item, source, targets, r);
    var named := Rows(item, r.outboxId)[0];
    assert named in Rows(item, r.outboxId);
    var k :| 0 <= k < |item.outbox| && item.outbox[k] == named;
    RowByTarget(item, j, k);
  }

  lemma ReceiptIsDocumented(item: Item, source: string, targets: Targets, i: nat)
    requires i < |SentReceipts(item)| && ReceiptOk(item, source, targets, SentReceipts(item)[i])
    ensures ReceiptDocumented(item, source, targets, i)
  {
    var r := SentReceipts(item)[i];
    var named := Rows(item, r.outboxId)[0];
    assert named in Rows(item, r.outboxId);
    var j :| 0 <= j < |item.outbox| && item.outbox[j] == named;
    assert Documents(item, source, targets, i, j);
  }

  lemma IdsAreDistinct(item: Item)
    requires forall j :: 0 <= j < |item.outbox| ==> |Rows(item, item.outbox[j].id)| == 1
    ensures Distinct(RowIds(item.outbox))
  {
    forall j, k | 0 <= j < k < |item.outbox|
      ensures item.outbox[j].id != item.outbox[k].id
    {
      if item.outbox[j].id == item.outbox[k].id {
        FilterTwo(WithId(item.outbox[j].id), item.outbox, j, k);
      }
    }
  }

  lemma CountsForceDistinct(item: Item, targets: Targets)
    requires |SentReceipts(item)| == |targets| && Elements(ReceiptTargets(SentReceipts(item))) == targets.Keys
    requires |item.outbox| == |targets| && Elements(RowTargets(item.outbox)) == targets.Keys
    ensures Distinct(ReceiptTargets(SentReceipts(item))) && Distinct(RowTargets(item.outbox))
  {
    KeysSize(targets);
    DistinctSize(ReceiptTargets(SentReceipts(item)));
    DistinctSize(RowTargets(item.outbox));
  }

  lemma AcceptedIsOneToOne(item: Item, source: string, channel: string, targets: Targets)
    requires Verify(item, source, channel, targets)
    ensures OneDeliveryPerTarget(item, source, targets)
    ensures forall j :: 0 <= j < |item.outbox| ==> RowDocumented(item, source, targets, j)
  {
    CountsForceDistinct(item, targets);
    forall j | 0 <= j < |item.outbox|
      ensures RowDocumented(item, source, targets, j) && |Rows(item, item.outbox[j].id)| == 1
    {
      var i := RowIsReached(item, source, channel, targets, j);
    }
    IdsAreDistinct(item);
    forall i | 0 <= i < |SentReceipts(item)|
      ensures ReceiptDocumented(item, source, targets, i)
    {
      ReceiptIsDocumented(item, source, targets, i);
    }
  }

  lemma DocumentedIsOk(item: Item, source: string, targets: Targets, i: nat)
    requires i < |SentReceipts(item)| && ReceiptDocumented(item, source, targets, i) && Distinct(RowIds(item.outbox))
    requires forall n :: 0 <= n < |item.receipts| ==> LifecycleOk(item.receipts[n], targets)
    ensures ReceiptOk(item, source, targets, SentReceipts(item)[i])
  {
    var r := SentReceipts(item)[i];
    assert r in SentReceipts(item);
    var n :| 0 <= n < |item.receipts| && item.receipts[n] == r;
    assert LifecycleOk(item.receipts[n], targets);
    var j :| Documents(item, source, targets, i, j);
    var ids := RowIds(item.outbox);
    assert forall k :: 0 <= k < |item.outbox| ==> ids[k] == item.outbox[k].id;
    FilterOne(WithId(r.outboxId), item.outbox, j);
  }

  lemma OneToOneIsAccepted(item: Item, source: string, channel: string, targets: Targets)
    requires item.event.sourceAdapter == source && item.event.sourceChannel == channel
    requires forall i :: 0 <= i < |item.receipts| ==> LifecycleOk(item.receipts[i], targets)
    requires OneDeliveryPerTarget(item, source, targets)
    ensures Verify(item, source, channel, targets)
  {
    KeysSize(targets);
    DistinctSize(ReceiptTargets(SentReceipts(item)));
    DistinctSize(RowTargets(item.outbox));
    forall i | 0 <= i < |SentReceipts(item)|
      ensures ReceiptOk(item, source, targets, SentReceipts(item)[i])
    {
      DocumentedIsOk(item, source, targets, i);
    }
  }

  /**
   * `verify` accepts exactly the items with the right source, receipts that are
   * queued or sent live work for a target, and one delivery per target.
   */
  lemma VerifyExactly(item: Item, source: string, channel: string, targets: Targets)
    ensures Verify(item, source, channel, targets) <==>
            && item.event.sourceAdapter == source
            && item.event.sourceChannel == channel
            && (forall i :: 0 <= i < |item.receipts| ==> LifecycleOk(item.receipts[i], targets))
            && OneDeliveryPerTarget(item, source, targets)
  {
    if Verify(item, source, channel, targets) {
      AcceptedIsOneToOne(item, source, channel, targets);
    } else if
      && item.event.sourceAdapter == source
      && item.event.sourceChannel == channel
      && (forall i :: 0 <= i < |item.receipts| ==> LifecycleOk(item.receipts[i], targets))
      && OneDeliveryPerTarget(item, source, targets)
    {
      OneToOneIsAccepted(item, source, channel, targets);
    }
  }

  /** Only rows named by receipts are inspected, yet every row is sent, live, first-attempt work of this event. */
  lemma EveryRowIsLive(item: Item, source: string, channel: string, targets: Targets, j: nat)
    requires Verify(item, source, channel, targets) && j < |item.outbox|
    ensures var row := item.outbox[j];
      && row.status == Sent && row.attempt == 1
      && row.dispatchSource == Live && row.replayRun.None?
      && row.eventId == item.event.id
      && row.targetAdapter in targets && row.targetChannel == targets[row.targetAdapter]
  {
    CountsForceDistinct(item, targets);
    var i := RowIsReached(item, source, channel, targets, j);
  }
}
