/**
 * The stream consumer: volatile buffers in front of the ledger, and Kafka offsets behind it. Every call
 * into another system may raise, unless the session is calm. `crashPoints` records the durable state after
 * every effect, so a fact about all of them is a fact about every point a crash can fall on.
 */
module StreamConsumer {
  import opened Common
  import opened Jobs
  import JobSession

  datatype Partition = Partition(topic: string, number: nat)

  datatype Body = Undecodable | Decoded(key: EventKey, payload: EventPayload)

  datatype Message = Message(partition: Partition, offset: nat, body: Body)

  datatype Buffered = Buffered(payload: EventPayload, messages: seq<Message>)

  type Ledger = map<EventKey, EventRecord>

  /**
   * What survives a crash: the committed offset of each partition, the ledger, and what was dead-lettered or
   * dropped.
   */
  datatype Durable = Durable(committed: map<Partition, nat>, ledger: Ledger, deadLetters: set<Message>,
                             dropped: set<Message>)

  /**
   * The message needs no redelivery: its event, as it carries it, is staged or applied, or it was
   * dead-lettered, or its policy rejects it.
   */
  ghost predicate Settled(d: Durable, m: Message) {
    || m in d.deadLetters || m in d.dropped
    || (m.body.Decoded? && m.body.key in d.ledger && d.ledger[m.body.key].state != EventPending
        && d.ledger[m.body.key].payload == m.body.payload)
  }

  /** Offset safety: every message at or below a committed offset is settled. */
  ghost predicate OffsetSafe(log: iset<Message>, d: Durable) {
    forall m | m in log && m.partition in d.committed && m.offset <= d.committed[m.partition] :: Settled(d, m)
  }

  /** What the schema, registry and quality checks say of a message; a passing one may have reported violations. */
  datatype Verdict = Malformed | Rejects | Quarantines | Passes

  predicate Unreadable(m: Message, verdict: Verdict) {
    m.body.Undecodable? || verdict == Malformed
  }

  /** The identity was registered with another payload. */
  predicate Conflicts(ledger: Ledger, m: Message) {
    m.body.Decoded? && m.body.key in ledger && ledger[m.body.key].payload != m.body.payload
  }

  /** The event is staged or applied already. */
  predicate IsDuplicate(ledger: Ledger, m: Message) {
    m.body.Decoded? && m.body.key in ledger && ledger[m.body.key].payload == m.body.payload
    && ledger[m.body.key].state != EventPending
  }

  /** `online` is history: the identities handed to the online store, in order. */
  datatype Snapshot = Snapshot(durable: Durable, buffers: Buffers, online: seq<EventKey>)

  predicate OffsetDone(d: Durable, m: Message) {
    m.partition in d.committed && d.committed[m.partition] == m.offset
  }

  /** No outcome for the message but waiting for a flush, or its duplicate. */
  predicate SameOutcomes(before: Durable, after: Durable) {
    after.deadLetters == before.deadLetters && after.dropped == before.dropped
  }

  /** A new or still pending event is registered, buffered and, when it was not buffered yet, written online. */
  ghost predicate TakenIn(before: Snapshot, after: Snapshot, m: Message)
    requires m.body.Decoded?
  {
    var key := m.body.key;
    && WaitingIn(after.buffers, m) && key in after.durable.ledger
    && after.durable.ledger[key].payload == m.body.payload && after.durable.ledger[key].state == EventPending
    && after.durable.committed == before.durable.committed
    && after.online == before.online + (if key.eventId in BufferOf(before.buffers, key.view) then [] else [key])
  }

  /** What becomes of a message when nothing raises, told by what it is. */
  ghost predicate ComesTo(before: Snapshot, after: Snapshot, m: Message, verdict: Verdict)
    requires !Unreadable(m, verdict)
  {
    var a, b := before.durable, after.durable;
    if verdict == Rejects then
      b.dropped == a.dropped + {m} && b.deadLetters == a.deadLetters && OffsetDone(b, m)
    else if verdict == Quarantines || Conflicts(a.ledger, m) then
      b.deadLetters == a.deadLetters + {m} && b.dropped == a.dropped && OffsetDone(b, m)
    else if IsDuplicate(a.ledger, m) then
      SameOutcomes(a, b) && OffsetDone(b, m)
    else
      SameOutcomes(a, b) && TakenIn(before, after, m)
  }

  /** What processing may have done to a message by the time something raises. */
  predicate AtMostDone(a: Durable, b: Durable, m: Message, verdict: Verdict) {
    && (b.dropped == a.dropped || (!Unreadable(m, verdict) && verdict == Rejects && b.dropped == a.dropped + {m}))
    && (b.deadLetters == a.deadLetters
        || (!Unreadable(m, verdict) && (verdict == Quarantines || (verdict == Passes && Conflicts(a.ledger, m)))
            && b.deadLetters == a.deadLetters + {m}))
  }

  /** Committed offsets never go back. */
  ghost predicate CommitsAdvance(a: Durable, b: Durable) {
    forall p | p in a.committed :: p in b.committed && a.committed[p] <= b.committed[p]
  }

  /** How the ledger may change under the consumer: others register nothing and never touch a pending record. */
  ghost predicate LedgerGoesOn(a: Ledger, b: Ledger) {
    && a.Keys == b.Keys
    && forall key | key in a ::
         a[key].payload == b[key].payload && (a[key].state == EventPending <==> b[key].state == EventPending)
  }

  ghost predicate LedgerAdvances(a: Ledger, b: Ledger) {
    forall key | key in a :: key in b && a[key].payload == b[key].payload
      && (a[key].state != EventPending ==> b[key].state != EventPending)
  }

  /** A durable state that only gains settled messages stays safe, and stays so at the same offsets. */
  lemma StaysSafe(log: iset<Message>, a: Durable, b: Durable)
    requires OffsetSafe(log, a) && a.committed == b.committed && LedgerAdvances(a.ledger, b.ledger)
    requires a.deadLetters <= b.deadLetters && a.dropped <= b.dropped
    ensures OffsetSafe(log, b) && CommitsAdvance(a, b)
    ensures forall m | Settled(a, m) :: Settled(b, m)
  {}

  /** The next offset a partition may deliver. */
  function PositionOf(positions: map<Partition, nat>, p: Partition): nat {
    if p in positions then positions[p] else 0
  }

  /** In-order delivery per partition: each message is the first of the log at or after the position. */
  ghost predicate InOrder(log: iset<Message>, positions: map<Partition, nat>, incoming: seq<Message>)
    decreases |incoming|
  {
    incoming != [] ==>
      && NextInOrder(log, positions, incoming[0])
      && InOrder(log, Advanced(positions, incoming[0]), incoming[1..])
  }

  ghost predicate NextInOrder(log: iset<Message>, positions: map<Partition, nat>, m: Message) {
    && m in log && PositionOf(positions, m.partition) <= m.offset
    && (forall x | x in log && x.partition == m.partition && x.offset < m.offset ::
          x.offset < PositionOf(positions, m.partition))
    && (forall x | x in log && x.partition == m.partition && x.offset == m.offset :: x == m)
  }

  function Advanced(positions: map<Partition, nat>, m: Message): map<Partition, nat> {
    positions[m.partition := m.offset + 1]
  }

  type Buffers = map<ViewRef, map<string, Buffered>>

  /** The message sits in the buffer entry of its own identity. */
  ghost predicate WaitingIn(buffers: Buffers, m: Message) {
    && m.body.Decoded? && m.body.key.view in buffers && m.body.key.eventId in buffers[m.body.key.view]
    && m in buffers[m.body.key.view][m.body.key.eventId].messages
  }

  /** Every delivered message is settled or waiting in a buffer. */
  ghost predicate AccountedFor(log: iset<Message>, positions: map<Partition, nat>, buffers: Buffers, d: Durable) {
    forall m | m in log && m.offset < PositionOf(positions, m.partition) :: Settled(d, m) || WaitingIn(buffers, m)
  }

  /**
   * A buffered message was delivered, carries this identity and payload, and is not below the committed offset
   * of its partition.
   */
  ghost predicate MayWait(log: iset<Message>, positions: map<Partition, nat>, committed: map<Partition, nat>,
                          key: EventKey, payload: EventPayload, m: Message) {
    && m in log && m.body == Decoded(key, payload)
    && m.offset < PositionOf(positions, m.partition)
    && (m.partition in committed ==> committed[m.partition] <= m.offset)
  }

  /** Buffer entries carry registered payloads, and only messages that may wait. */
  ghost predicate EntriesOk(log: iset<Message>, positions: map<Partition, nat>, buffers: Buffers, d: Durable) {
    forall view, id | view in buffers && id in buffers[view] ::
      EntryOk(log, positions, d, EventKey(view, id), buffers[view][id])
  }

  ghost predicate EntryOk(log: iset<Message>, positions: map<Partition, nat>, d: Durable, key: EventKey,
                          entry: Buffered) {
    && key in d.ledger && d.ledger[key].payload == entry.payload
    && forall m | m in entry.messages :: MayWait(log, positions, d.committed, key, entry.payload, m)
  }

  ghost predicate CommitsBehind(positions: map<Partition, nat>, committed: map<Partition, nat>) {
    forall p | p in committed :: committed[p] < PositionOf(positions, p)
  }

  function BufferOf(buffers: Buffers, view: ViewRef): map<string, Buffered> {
    if view in buffers then buffers[view] else map[]
  }

  /** The entry of an identity with one more message, or none. */
  function Entry(buffers: Buffers, key: EventKey, payload: EventPayload, message: Option<Message>): Buffered {
    var buffer := BufferOf(buffers, key.view);
    var entry := if key.eventId in buffer then buffer[key.eventId] else Buffered(payload, []);
    if message.Some? then entry.(messages := entry.messages + [message.value]) else entry
  }

  function WithEntry(buffers: Buffers, key: EventKey, entry: Buffered): Buffers {
    buffers[key.view := BufferOf(buffers, key.view)[key.eventId := entry]]
  }

  lemma AdvancedOk(log: iset<Message>, positions: map<Partition, nat>, buffers: Buffers, d: Durable, m: Message)
    requires EntriesOk(log, positions, buffers, d) && CommitsBehind(positions, d.committed)
    requires NextInOrder(log, positions, m)
    ensures EntriesOk(log, Advanced(positions, m), buffers, d)
    ensures CommitsBehind(Advanced(positions, m), d.committed)
    ensures forall x | x in log && x.offset < PositionOf(Advanced(positions, m), x.partition) ::
              x == m || x.offset < PositionOf(positions, x.partition)
  {
    forall view, id | view in buffers && id in buffers[view]
      ensures EntryOk(log, Advanced(positions, m), d, EventKey(view, id), buffers[view][id])
    {
      assert EntryOk(log, positions, d, EventKey(view, id), buffers[view][id]);
    }
  }

  /** Adding a message to the entry of its identity accounts for it and keeps every other entry. */
  lemma BufferedOk(log: iset<Message>, positions: map<Partition, nat>, buffers: Buffers, d: Durable,
                   key: EventKey, payload: EventPayload, message: Option<Message>)
    requires AccountedFor(log, positions, buffers, d) && EntriesOk(log, positions, buffers, d)
    requires CommitsBehind(positions, d.committed) && key in d.ledger && d.ledger[key].payload == payload
    requires message.Some? ==> message.value.body == Decoded(key, payload) && NextInOrder(log, positions, message.value)
    ensures var positions' := if message.Some? then Advanced(positions, message.value) else positions;
            var buffers' := WithEntry(buffers, key, Entry(buffers, key, payload, message));
            && AccountedFor(log, positions', buffers', d) && EntriesOk(log, positions', buffers', d)
            && CommitsBehind(positions', d.committed)
            && (message.Some? ==> WaitingIn(buffers', message.value))
  {
    var positions' := if message.Some? then Advanced(positions, message.value) else positions;
    var entry := Entry(buffers, key, payload, message);
    var buffers' := WithEntry(buffers, key, entry);
    if message.Some? { AdvancedOk(log, positions, buffers, d, message.value); }
    forall m | WaitingIn(buffers, m) ensures WaitingIn(buffers', m) {}
    assert EntryOk(log, positions', d, key, entry) by {
      if key.view in buffers && key.eventId in buffers[key.view] {
        assert EntryOk(log, positions', d, EventKey(key.view, key.eventId), buffers[key.view][key.eventId]);
      }
    }
    forall view, id | view in buffers' && id in buffers'[view]
      ensures EntryOk(log, positions', d, EventKey(view, id), buffers'[view][id])
    {
      if EventKey(view, id) != key {
        assert view in buffers && id in buffers[view];
      }
    }
  }

  /** Once its identities are staged, a view's buffer may be emptied. */
  lemma ClearedOk(log: iset<Message>, positions: map<Partition, nat>, buffers: Buffers, d: Durable, view: ViewRef)
    requires AccountedFor(log, positions, buffers, d) && EntriesOk(log, positions, buffers, d) && view in buffers
    requires forall id | id in buffers[view] ::
               EventKey(view, id) in d.ledger && d.ledger[EventKey(view, id)].state != EventPending
    ensures AccountedFor(log, positions, buffers[view := map[]], d)
    ensures EntriesOk(log, positions, buffers[view := map[]], d)
  {
    forall m | m in log && m.offset < PositionOf(positions, m.partition)
      ensures Settled(d, m) || WaitingIn(buffers[view := map[]], m)
    {
      if WaitingIn(buffers, m) && m.body.key.view == view {
        assert EventKey(view, m.body.key.eventId) == m.body.key;
        assert EntryOk(log, positions, d, m.body.key, buffers[view][m.body.key.eventId]);
      }
    }
  }

  /** Delivered messages, none below the committed offset of its partition. */
  ghost predicate MayCommit(positions: map<Partition, nat>, committed: map<Partition, nat>, messages: seq<Message>) {
    forall m | m in messages ::
      && m.offset < PositionOf(positions, m.partition)
      && (m.partition in committed ==> committed[m.partition] <= m.offset)
  }

  /** Part-way through committing: the partitions not in `rest` are at their greatest offset. */
  ghost predicate PartCommitted(start: map<Partition, nat>, latest: map<Partition, Message>, rest: set<Partition>,
                                committed: map<Partition, nat>) {
    && rest <= latest.Keys
    && (forall p :: p in committed <==> p in start || (p in latest && p !in rest))
    && (forall p | p in latest && p !in rest :: committed[p] == latest[p].offset)
    && (forall p | p in start && (p !in latest || p in rest) :: committed[p] == start[p])
  }

  /** The messages that waited in the views already flushed have been collected. */
  ghost predicate Collected(start: Buffers, rest: set<ViewRef>, staged: seq<Message>) {
    forall m | WaitingIn(start, m) && m.body.key.view !in rest :: m in staged
  }

  /** Part-way through a flush: the views in `rest` are as they were, the others are empty. */
  ghost predicate PartFlushed(start: Buffers, rest: set<ViewRef>, buffers: Buffers) {
    && rest <= start.Keys == buffers.Keys
    && forall view | view in buffers :: buffers[view] == if view in rest then start[view] else map[]
  }

  /** Every identity buffered for the view is staged or applied. */
  ghost predicate ViewStaged(buffers: Buffers, view: ViewRef, ledger: Ledger) {
    view in buffers ==>
      forall id | id in buffers[view] ::
        EventKey(view, id) in ledger && ledger[EventKey(view, id)].state != EventPending
  }

  /** Every identity buffered for the view is still pending. */
  ghost predicate ViewPending(buffers: Buffers, view: ViewRef, ledger: Ledger) {
    view in buffers ==>
      forall id | id in buffers[view] ::
        EventKey(view, id) in ledger && ledger[EventKey(view, id)].state == EventPending
  }

  ghost predicate BuffersPending(buffers: Buffers, ledger: Ledger) {
    forall view | view in buffers :: ViewPending(buffers, view, ledger)
  }

  /** Records of other views are as pending as they were. */
  ghost predicate OthersPending(a: Ledger, b: Ledger, view: ViewRef) {
    forall key | key in a && key.view != view ::
      key in b && (a[key].state == EventPending <==> b[key].state == EventPending)
  }

  ghost predicate AllStaged(start: Buffers, rest: set<ViewRef>, ledger: Ledger) {
    forall view | view in start && view !in rest :: ViewStaged(start, view, ledger)
  }

  lemma StagedRound(start: Buffers, rest: set<ViewRef>, buffers: Buffers, before: Ledger, after: Ledger, view: ViewRef)
    requires AllStaged(start, rest, before) && PartFlushed(start, rest, buffers) && view in rest
    requires LedgerAdvances(before, after) && ViewStaged(buffers, view, after)
    ensures AllStaged(start, rest - {view}, after)
  {
    forall v | v in start && v !in rest - {view} ensures ViewStaged(start, v, after) {
      if v != view { assert ViewStaged(start, v, before); }
    }
  }

  /** Flushing one view leaves the others pending. */
  lemma PendingRound(rest: set<ViewRef>, buffers: Buffers, before: Ledger, after: Ledger, view: ViewRef)
    requires view in buffers && OthersPending(before, after, view)
    requires forall v | v in rest :: ViewPending(buffers, v, before)
    ensures forall v | v in rest - {view} :: ViewPending(buffers[view := map[]], v, after)
  {
    forall v | v in rest - {view} ensures ViewPending(buffers[view := map[]], v, after) {
      assert ViewPending(buffers, v, before);
    }
  }

  /** Buffering one more pending record. */
  lemma BufferedPending(buffers: Buffers, ledger: Ledger, key: EventKey, entry: Buffered)
    requires key in ledger && ledger[key].state == EventPending
    ensures BuffersPending(buffers, ledger) ==> BuffersPending(WithEntry(buffers, key, entry), ledger)
  {
    var next := WithEntry(buffers, key, entry);
    if BuffersPending(buffers, ledger) {
      forall view | view in next ensures ViewPending(next, view, ledger) {
        assert view in buffers ==> ViewPending(buffers, view, ledger);
        assert EventKey(key.view, key.eventId) == key;
      }
    }
  }

  lemma EntryKeeps(buffers: Buffers, key: EventKey, entry: Buffered)
    ensures key.eventId in BufferOf(WithEntry(buffers, key, entry), key.view)
    ensures forall view, id | id in BufferOf(buffers, view) :: id in BufferOf(WithEntry(buffers, key, entry), view)
  {}

  ghost predicate Delivered(log: iset<Message>, positions: map<Partition, nat>, m: Message) {
    m in log && m.offset < PositionOf(positions, m.partition)
  }

  lemma DeliveredStays(log: iset<Message>, positions: map<Partition, nat>, m: Message)
    requires NextInOrder(log, positions, m)
    ensures Delivered(log, Advanced(positions, m), m)
    ensures forall x | Delivered(log, positions, x) :: Delivered(log, Advanced(positions, m), x)
  {}

  /** With nothing buffered, what has been delivered is settled. */
  lemma DrainedIsSettled(log: iset<Message>, positions: map<Partition, nat>, buffers: Buffers, d: Durable)
    requires AccountedFor(log, positions, buffers, d) && forall view | view in buffers :: buffers[view] == map[]
    ensures forall m | Delivered(log, positions, m) :: Settled(d, m)
  {
    forall m | WaitingIn(buffers, m) ensures false {}
  }

  lemma RecoveredAll(start: Buffers, pending: set<EventKey>, before: Ledger, after: Ledger)
    requires forall key | key in before :: key in pending <==> before[key].state == EventPending
    requires forall key | key in pending :: key.eventId in BufferOf(start, key.view)
    requires AllStaged(start, {}, after) && LedgerAdvances(before, after)
    ensures forall key | key in before :: key in after && after[key].state != EventPending
  {
    forall key | key in before ensures key in after && after[key].state != EventPending {
      if key in pending { assert ViewStaged(start, key.view, after); }
    }
  }

  lemma FlushRound(start: Buffers, rest: set<ViewRef>, buffers: Buffers, staged: seq<Message>, view: ViewRef,
                   messages: seq<Message>)
    requires PartFlushed(start, rest, buffers) && Collected(start, rest, staged) && view in rest
    requires forall m | WaitingIn(buffers, m) && m.body.key.view == view :: m in messages
    ensures PartFlushed(start, rest - {view}, buffers[view := map[]])
    ensures Collected(start, rest - {view}, staged + messages)
  {
    forall m | WaitingIn(start, m) && m.body.key.view !in rest - {view} ensures m in staged + messages {
      if m.body.key.view == view { assert WaitingIn(buffers, m); }
    }
  }

  /** The entries survive whatever the ledger may do under the consumer. */
  lemma LedgerKeepsEntries(log: iset<Message>, positions: map<Partition, nat>, buffers: Buffers, a: Durable, b: Durable)
    requires EntriesOk(log, positions, buffers, a) && LedgerAdvances(a.ledger, b.ledger) && a.committed == b.committed
    ensures EntriesOk(log, positions, buffers, b)
  {
    forall view, id | view in buffers && id in buffers[view]
      ensures EntryOk(log, positions, b, EventKey(view, id), buffers[view][id])
    {
      assert EntryOk(log, positions, a, EventKey(view, id), buffers[view][id]);
    }
  }

  /** The message of greatest offset for each partition. */
  method LatestByPartition(messages: seq<Message>) returns (latest: map<Partition, Message>)
    ensures forall p :: p in latest <==> exists m :: m in messages && m.partition == p
    ensures forall p | p in latest :: latest[p] in messages && latest[p].partition == p
    ensures forall m | m in messages :: m.offset <= latest[m.partition].offset
  {
    latest := map[];
    for i := 0 to |messages|
      invariant forall p | p in latest :: latest[p] in messages && latest[p].partition == p
      invariant forall k | 0 <= k < i ::
                  messages[k].partition in latest && messages[k].offset <= latest[messages[k].partition].offset
    {
      var m := messages[i];
      if m.partition !in latest || m.offset > latest[m.partition].offset {
        latest := latest[m.partition := m];
      }
    }
  }

  method FreshJobId(jobs: map<JobId, Job>) returns (id: JobId)
    ensures id !in jobs
  {
    id := 0;
    var rest := jobs.Keys;
    while rest != {}
      invariant rest <= jobs.Keys && forall j | j in jobs.Keys :: j in rest || j < id
      decreases rest
    {
      var j :| j in rest;
      if id <= j { id := j + 1; }
      rest := rest - {j};
    }
  }

  class Consumer {
    const db: JobSession.Session
    const calm: bool                  // no call into another system raises
    ghost const log: iset<Message>
    var buffers: map<ViewRef, map<string, Buffered>>
    var committed: map<Partition, nat>
    ghost var deadLetters: set<Message>
    ghost var dropped: set<Message>
    ghost var online: seq<EventKey>
    ghost var positions: map<Partition, nat>
    ghost var crashPoints: seq<Durable>

    ghost function Now(): Durable
      reads this, db
    {
      Durable(committed, db.ledger, deadLetters, dropped)
    }

    ghost function Shot(): Snapshot
      reads this, db
    {
      Snapshot(Now(), buffers, online)
    }

    ghost predicate Waiting(m: Message)
      reads this
    {
      WaitingIn(buffers, m)
    }

    /** In a calm session everything buffered is still pending between two calls. */
    ghost predicate InStep()
      reads this, db
    {
      calm ==> BuffersPending(buffers, db.ledger)
    }

    /** A call into another system. */
    method External() returns (failed: bool)
      ensures calm ==> !failed
    {
      failed := *;
      if calm { failed := false; }
    }

    /** Every durable state so far was safe, and commits only ever advanced. */
    ghost predicate CrashSafe()
      reads this, db
    {
      && |crashPoints| > 0 && crashPoints[|crashPoints| - 1] == Now()
      && (forall d | d in crashPoints :: OffsetSafe(log, d))
      && (forall i, j | 0 <= i <= j < |crashPoints| :: CommitsAdvance(crashPoints[i], crashPoints[j]))
    }

    ghost predicate Valid()
      reads this, db
    {
      && AccountedFor(log, positions, buffers, Now()) && EntriesOk(log, positions, buffers, Now())
      && CommitsBehind(positions, committed) && CrashSafe()
    }

    /** A session starts from whatever durable state the last one left, provided it was safe. */
    constructor (db: JobSession.Session, calm: bool, ghost log: iset<Message>, start: map<Partition, nat>,
                 ghost deadLetters: set<Message>, ghost dropped: set<Message>)
      requires OffsetSafe(log, Durable(start, db.ledger, deadLetters, dropped))
      ensures Valid() && InStep() && this.db == db && this.log == log && this.calm == calm
      ensures committed == start && buffers == map[] && online == []
      ensures positions == map p | p in start :: start[p] + 1
      ensures crashPoints == [Durable(start, db.ledger, deadLetters, dropped)]
    {
      this.db := db;
      this.calm := calm;
      this.log := log;
      buffers, committed, online := map[], start, [];
      this.deadLetters, this.dropped := deadLetters, dropped;
      positions := map p | p in start :: start[p] + 1;
      crashPoints := [Durable(start, db.ledger, deadLetters, dropped)];
    }

    /** Records the durable state after an effect that advanced it. */
    ghost method Mark()
      requires |crashPoints| > 0 && (forall d | d in crashPoints :: OffsetSafe(log, d))
      requires forall i, j | 0 <= i <= j < |crashPoints| :: CommitsAdvance(crashPoints[i], crashPoints[j])
      requires OffsetSafe(log, Now()) && CommitsAdvance(crashPoints[|crashPoints| - 1], Now())
      modifies this`crashPoints
      ensures crashPoints == old(crashPoints) + [Now()]
      ensures CrashSafe()
    {
      var before := crashPoints;
      assert before[|before| - 1] in before;
      crashPoints := crashPoints + [Now()];
      forall i, j | 0 <= i <= j < |crashPoints| ensures CommitsAdvance(crashPoints[i], crashPoints[j]) {
        if j == |before| && i < j {
          assert CommitsAdvance(before[i], before[|before| - 1]);
        }
      }
    }

    /** Whatever workers and clients commit meanwhile; only the contract matters here. */
    method Others()
      requires Valid()
      modifies db, this`crashPoints
      ensures Valid() && (old(InStep()) ==> InStep()) && LedgerGoesOn(old(db.ledger), db.ledger)
              && LedgerAdvances(old(db.ledger), db.ledger)
      ensures old(crashPoints) <= crashPoints
    {
      Settle(Now());
    }

    /** The bookkeeping after an effect that only settles messages. */
    ghost method Settle(before: Durable)
      requires |crashPoints| > 0 && crashPoints[|crashPoints| - 1] == before
      requires (forall d | d in crashPoints :: OffsetSafe(log, d))
      requires forall i, j | 0 <= i <= j < |crashPoints| :: CommitsAdvance(crashPoints[i], crashPoints[j])
      requires before.committed == committed && LedgerAdvances(before.ledger, db.ledger)
      requires before.deadLetters <= deadLetters && before.dropped <= dropped
      requires AccountedFor(log, positions, buffers, before) && EntriesOk(log, positions, buffers, before)
      requires CommitsBehind(positions, committed)
      modifies this`crashPoints
      ensures Valid() && crashPoints == old(crashPoints) + [Now()]
    {
      assert before in crashPoints;
      StaysSafe(log, before, Now());
      LedgerKeepsEntries(log, positions, buffers, before, Now());
      Mark();
    }

    /** `_dead_letter`: handing the message to the producer is the effect; it may raise first. */
    method DeadLetter(m: Message) returns (raised: bool)
      requires Valid()
      modifies this`deadLetters, this`crashPoints
      ensures Valid()
      ensures old(crashPoints) <= crashPoints
      ensures deadLetters == if raised then old(deadLetters) else old(deadLetters) + {m}
      ensures calm ==> !raised
    {
      var failed := External();
      if failed { return true; }
      ghost var before := Now();
      deadLetters := deadLetters + {m};
      Settle(before);
      raised := false;
    }

    /** No buffer holds anything. */
    ghost predicate Drained()
      reads this
    {
      forall view | view in buffers :: buffers[view] == map[]
    }

    /** A synchronous offset commit. It is only asked for when everything up to the message is settled. */
    method CommitOffset(m: Message) returns (raised: bool)
      requires Valid() && PositionOf(positions, m.partition) > m.offset
      requires m.partition in committed ==> committed[m.partition] <= m.offset
      requires Drained()
      modifies this`committed, this`crashPoints
      ensures Valid()
      ensures old(crashPoints) <= crashPoints
      ensures committed == if raised then old(committed) else old(committed)[m.partition := m.offset]
      ensures calm ==> !raised
    {
      var failed := External();
      if failed { return true; }
      assert Now() in crashPoints;
      ghost var before := Now();
      committed := committed[m.partition := m.offset];
      assert forall x :: Settled(before, x) <==> Settled(Now(), x);
      Mark();
      raised := false;
    }

    /** A delivered message that is settled moves the position of its partition past it. */
    ghost method Advance(m: Message)
      requires Valid() && Settled(Now(), m)
      requires NextInOrder(log, positions, m)
      modifies this`positions
      ensures Valid() && positions == Advanced(old(positions), m)
    {
      AdvancedOk(log, positions, buffers, Now(), m);
      positions := Advanced(positions, m);
    }

    /** `_buffer`: one entry per durable identity, keeping every message that carried it. */
    method Buffer(key: EventKey, payload: EventPayload, message: Option<Message>) returns (created: bool)
      requires Valid() && key in db.ledger && db.ledger[key].payload == payload
      requires message.Some? ==>
                 message.value.body == Decoded(key, payload) && NextInOrder(log, positions, message.value)
      modifies this`buffers, this`positions
      ensures Valid()
      ensures positions == if message.Some? then Advanced(old(positions), message.value) else old(positions)
      ensures message.Some? ==> Waiting(message.value)
      ensures created <==> key.eventId !in BufferOf(old(buffers), key.view)
      ensures buffers == WithEntry(old(buffers), key, Entry(old(buffers), key, payload, message))
    {
      BufferedOk(log, positions, buffers, Now(), key, payload, message);
      created := key.eventId !in BufferOf(buffers, key.view);
      buffers := WithEntry(buffers, key, Entry(buffers, key, payload, message));
      if message.Some? {
        positions := Advanced(positions, message.value);
      }
    }

    /** Buffers a pending record and, the first time, writes it online. */
    method BufferOne(key: EventKey, message: Option<Message>) returns (raised: bool)
      requires Valid() && InStep() && key in db.ledger && db.ledger[key].state == EventPending
      requires message.Some? ==> message.value.body == Decoded(key, db.ledger[key].payload)
                                 && NextInOrder(log, positions, message.value)
      modifies this`buffers, this`positions, this`online
      ensures Valid() && InStep() && (calm ==> !raised)
      ensures positions == if message.Some? then Advanced(old(positions), message.value) else old(positions)
      ensures message.Some? ==> Waiting(message.value)
      ensures buffers == WithEntry(old(buffers), key, Entry(old(buffers), key, db.ledger[key].payload, message))
      ensures !raised ==>
                online == old(online) + (if key.eventId in BufferOf(old(buffers), key.view) then [] else [key])
    {
      BufferedPending(buffers, db.ledger, key, Entry(buffers, key, db.ledger[key].payload, message));
      var created := Buffer(key, db.ledger[key].payload, message);
      raised := false;
      if created {
        raised := WriteOnline(key);                           // it raises after buffering
      }
    }

    /** The messages of a buffer, entry by entry. */
    method MessagesOf(buffer: map<string, Buffered>) returns (messages: seq<Message>)
      ensures forall m :: m in messages <==> exists id :: id in buffer && m in buffer[id].messages
    {
      messages := [];
      var rest := buffer.Keys;
      while rest != {}
        invariant rest <= buffer.Keys
        invariant forall m :: m in messages <==> exists id :: id in buffer && id !in rest && m in buffer[id].messages
        decreases rest
      {
        var id :| id in rest;
        messages := messages + buffer[id].messages;
        rest := rest - {id};
      }
    }

    /** The staging transaction of a view: one append job for all its buffered identities. */
    method StageView(view: ViewRef) returns (reply: Reply)
      requires Valid() && view in buffers
      modifies db, this`crashPoints
      ensures Valid() && LedgerAdvances(old(db.ledger), db.ledger)
      ensures old(crashPoints) <= crashPoints
      ensures reply == Accepted ==>
                forall id | id in buffers[view] ::
                  EventKey(view, id) in db.ledger && db.ledger[EventKey(view, id)].state != EventPending
      ensures reply == Accepted <==> ViewPending(buffers, view, old(db.ledger))
      ensures OthersPending(old(db.ledger), db.ledger, view)
      ensures reply != Accepted ==> db.ledger == old(db.ledger) && db.jobs == old(db.jobs)
    {
      var keys := set id | id in buffers[view] :: EventKey(view, id);
      var job := FreshJobId(db.jobs);
      var staging: Uri, now: Time := *, *;
      ghost var before := Now();
      reply := db.StageEvents(job, view, staging, keys, now);
      assert forall id | id in buffers[view] :: EventKey(view, id) in keys;
      assert forall id | id in buffers[view] :: EntryOk(log, positions, before, EventKey(view, id), buffers[view][id]);
      Settle(before);
    }

    /**
     * `_flush_view`: write the staging table, then create the append job and mark the records staged in
     * one transaction. It may raise before the transaction, because a record is not pending any more, or
     * after the commit.
     */
    method FlushView(view: ViewRef) returns (raised: bool, messages: seq<Message>)
      requires Valid() && view in buffers
      modifies db, this`crashPoints
      ensures Valid() && LedgerAdvances(old(db.ledger), db.ledger)
      ensures old(crashPoints) <= crashPoints
      ensures !raised ==> forall id | id in buffers[view] ::
                EventKey(view, id) in db.ledger && db.ledger[EventKey(view, id)].state != EventPending
      ensures !raised ==>
                forall m :: m in messages <==> exists id :: id in buffers[view] && m in buffers[view][id].messages
      ensures OthersPending(old(db.ledger), db.ledger, view)
      ensures calm && ViewPending(buffers, view, old(db.ledger)) ==> !raised
    {
      messages := [];
      var failed := External();
      if failed { return true, messages; }
      Others();
      var reply := StageView(view);
      if reply != Accepted { return true, messages; }
      failed := External();
      if failed { return true, messages; }
      messages := MessagesOf(buffers[view]);
      raised := false;
    }

    /** One round of `flush`: stage the view and, when that did not raise, empty its buffer. */
    method FlushAndClear(view: ViewRef) returns (raised: bool, messages: seq<Message>)
      requires Valid() && view in buffers
      modifies db, this`crashPoints, this`buffers
      ensures Valid() && LedgerAdvances(old(db.ledger), db.ledger)
      ensures !raised ==> ViewStaged(old(buffers), view, db.ledger)
      ensures old(crashPoints) <= crashPoints
      ensures buffers == if raised then old(buffers) else old(buffers)[view := map[]]
      ensures !raised ==> forall m | old(Waiting(m)) && m.body.key.view == view :: m in messages
      ensures !raised ==> MayCommit(positions, committed, messages)
      ensures OthersPending(old(db.ledger), db.ledger, view)
      ensures calm && ViewPending(old(buffers), view, old(db.ledger)) ==> !raised
    {
      raised, messages := FlushView(view);
      if raised { return; }
      forall m | m in messages
        ensures m.offset < PositionOf(positions, m.partition)
        ensures m.partition in committed ==> committed[m.partition] <= m.offset
      {
        var id :| id in buffers[view] && m in buffers[view][id].messages;
        assert EntryOk(log, positions, Now(), EventKey(view, id), buffers[view][id]);
      }
      ClearedOk(log, positions, buffers, Now(), view);
      buffers := buffers[view := map[]];
    }

    method CommitEach(latest: map<Partition, Message>) returns (raised: bool)
      requires Valid() && Drained()
      requires forall p | p in latest :: latest[p].partition == p && latest[p].offset < PositionOf(positions, p)
                                         && (p in committed ==> committed[p] <= latest[p].offset)
      modifies this`committed, this`crashPoints
      ensures Valid()
      ensures old(crashPoints) <= crashPoints
      ensures !raised ==> PartCommitted(old(committed), latest, {}, committed)
      ensures calm ==> !raised
    {
      var rest := latest.Keys;
      while rest != {}
        invariant Valid() && old(crashPoints) <= crashPoints
        invariant PartCommitted(old(committed), latest, rest, committed)
        decreases rest
      {
        var p :| p in rest;
        var failed := CommitOffset(latest[p]);
        if failed { return true; }
        rest := rest - {p};
      }
      raised := false;
    }

    /** `_commit_latest`: the greatest offset of each partition, committed one partition at a time. */
    method CommitLatest(messages: seq<Message>) returns (raised: bool)
      requires Valid() && Drained() && MayCommit(positions, committed, messages)
      modifies this`committed, this`crashPoints
      ensures Valid()
      ensures old(crashPoints) <= crashPoints
      ensures !raised ==> forall m | m in messages :: m.partition in committed && m.offset <= committed[m.partition]
      ensures calm ==> !raised
    {
      var latest := LatestByPartition(messages);
      raised := CommitEach(latest);
    }

    /**
     * `flush`: stage every view, then commit what was staged. A view that raises leaves the others' offsets
     * uncommitted.
     */
    method Flush() returns (raised: bool)
      requires Valid() && InStep()
      modifies this`buffers, this`committed, this`crashPoints, db
      ensures Valid() && (calm ==> !raised)
      ensures old(crashPoints) <= crashPoints
      ensures LedgerAdvances(old(db.ledger), db.ledger)
      ensures !raised ==> Drained()
      ensures !raised ==> AllStaged(old(buffers), {}, db.ledger)
      ensures !raised ==> forall m :: old(Waiting(m)) ==> m.partition in committed && m.offset <= committed[m.partition]
    {
      var staged: seq<Message> := [];
      ghost var start := buffers;
      var rest := buffers.Keys;
      while rest != {}
        invariant Valid() && committed == old(committed) && LedgerAdvances(old(db.ledger), db.ledger)
        invariant old(crashPoints) <= crashPoints
        invariant PartFlushed(start, rest, buffers) && Collected(start, rest, staged)
                  && AllStaged(start, rest, db.ledger)
        invariant MayCommit(positions, committed, staged)
        invariant calm ==> forall view | view in rest :: ViewPending(buffers, view, db.ledger)
        decreases rest
      {
        var view :| view in rest;
        ghost var before := buffers;
        ghost var ledger := db.ledger;
        var failed, messages := FlushAndClear(view);
        if failed { return true; }
        StagedRound(start, rest, before, ledger, db.ledger, view);
        if calm { PendingRound(rest, before, ledger, db.ledger, view); }
        FlushRound(start, rest, before, staged, view, messages);
        staged := staged + messages;
        rest := rest - {view};
      }
      raised := CommitLatest(staged);
    }

    /** Flush everything buffered, then commit the message itself. */
    method FlushAndCommit(m: Message) returns (raised: bool)
      requires Valid() && InStep() && PositionOf(positions, m.partition) == m.offset + 1
      modifies this`buffers, this`committed, this`crashPoints, db
      ensures Valid() && InStep() && (calm ==> !raised)
      ensures old(crashPoints) <= crashPoints
      ensures !raised ==> m.partition in committed && committed[m.partition] == m.offset
    {
      raised := Flush();
      if raised { return; }
      raised := CommitOffset(m);
    }

    /** The reject policy: the event is given up, and its offset committed. */
    method Drop(m: Message) returns (raised: bool)
      requires Valid() && InStep() && NextInOrder(log, positions, m)
      modifies this, db
      ensures Valid() && InStep() && positions == Advanced(old(positions), m) && (calm ==> !raised)
      ensures dropped == old(dropped) + {m} && deadLetters == old(deadLetters)
      ensures old(crashPoints) <= crashPoints
      ensures !raised ==> m.partition in committed && committed[m.partition] == m.offset
    {
      ghost var before := Now();
      dropped := dropped + {m};
      Settle(before);
      Advance(m);
      raised := FlushAndCommit(m);
    }

    /** The quarantine policy and identity conflicts: dead-letter first, then flush and commit. */
    method DeadLetterAndCommit(m: Message) returns (raised: bool)
      requires Valid() && InStep() && NextInOrder(log, positions, m)
      modifies this, db
      ensures Valid() && InStep() && (calm ==> !raised)
      ensures dropped == old(dropped) && (deadLetters == old(deadLetters) || deadLetters == old(deadLetters) + {m})
      ensures !raised ==> deadLetters == old(deadLetters) + {m}
      ensures old(crashPoints) <= crashPoints
      ensures positions == old(positions) || positions == Advanced(old(positions), m)
      ensures !raised ==> positions == Advanced(old(positions), m)
      ensures !raised ==> m.partition in committed && committed[m.partition] == m.offset
    {
      raised := DeadLetter(m);
      if raised { return; }
      Advance(m);
      raised := FlushAndCommit(m);
    }

    /**
     * The guarded part of `_handle`. When it returns, the message has come to what it is meant to come to: a new or
     * pending event is registered, buffered and written online, a duplicate is committed, a conflicting or
     * quarantined one is dead-lettered, a rejected one dropped. It raises for an unreadable message, and otherwise
     * only because a call into another system does.
     */
    method Process(m: Message, verdict: Verdict) returns (raised: bool)
      requires Valid() && InStep() && NextInOrder(log, positions, m)
      modifies this, db
      ensures Valid() && InStep()
      ensures old(crashPoints) <= crashPoints
      ensures positions == old(positions) || positions == Advanced(old(positions), m)
      ensures !raised ==> positions == Advanced(old(positions), m)
      ensures Unreadable(m, verdict) ==> raised && Shot() == old(Shot())
      ensures !raised ==> ComesTo(old(Shot()), Shot(), m, verdict)
      ensures raised ==> AtMostDone(old(Now()), Now(), m, verdict)
      ensures calm && !Unreadable(m, verdict) ==> !raised
    {
      if Unreadable(m, verdict) { return true; }
      var failed := External();
      if failed { return true; }
      if verdict == Rejects {
        raised := Drop(m);
        return;
      }
      if verdict == Quarantines {
        raised := DeadLetterAndCommit(m);
        return;
      }
      Others();
      raised := Admit(m);
    }

    /** The part from the registration on. */
    method Admit(m: Message) returns (raised: bool)
      requires Valid() && InStep() && NextInOrder(log, positions, m) && m.body.Decoded?
      modifies this, db
      ensures Valid() && InStep()
      ensures old(crashPoints) <= crashPoints
      ensures positions == old(positions) || positions == Advanced(old(positions), m)
      ensures !raised ==> positions == Advanced(old(positions), m)
      ensures !raised ==> ComesTo(old(Shot()), Shot(), m, Passes)
      ensures raised ==> AtMostDone(old(Now()), Now(), m, Passes)
      ensures calm ==> !raised
    {
      var key, payload := m.body.key, m.body.payload;
      ghost var before := Now();
      var isNew, conflict := db.RegisterEvent(key, payload);
      Settle(before);
      var failed := External();
      if failed { return true; }
      if conflict {
        raised := DeadLetterAndCommit(m);
        return;
      }
      raised := AdmitRegistered(m);
    }

    /** A registered event that is the message's own: done already, or still to be staged. */
    method AdmitRegistered(m: Message) returns (raised: bool)
      requires Valid() && InStep() && NextInOrder(log, positions, m) && m.body.Decoded?
      requires m.body.key in db.ledger && db.ledger[m.body.key].payload == m.body.payload
      modifies this, db
      ensures Valid() && InStep() && old(crashPoints) <= crashPoints && (calm ==> !raised)
      ensures positions == Advanced(old(positions), m) && SameOutcomes(old(Now()), Now())
      ensures !raised ==> if old(db.ledger[m.body.key].state) == EventPending then TakenIn(old(Shot()), Shot(), m)
                          else OffsetDone(Now(), m)
    {
      if db.ledger[m.body.key].state != EventPending {
        Advance(m);
        raised := FlushAndCommit(m);
      } else {
        raised := BufferOne(m.body.key, Some(m));
      }
    }

    /** `_write_online`, which hands the event to the online store or raises. */
    method WriteOnline(key: EventKey) returns (raised: bool)
      modifies this`online
      ensures online == if raised then old(online) else old(online) + [key]
      ensures calm ==> !raised
    {
      raised := External();
      if !raised { online := online + [key]; }
    }

    /**
     * `_handle`: whatever raises inside is dead-lettered, flushed and committed; a second failure escapes.
     * `raised` says whether anything raised inside; if not, the message has come to what it is.
     */
    method Handle(m: Message, verdict: Verdict) returns (escaped: bool, ghost raised: bool)
      requires Valid() && InStep() && NextInOrder(log, positions, m)
      modifies this, db
      ensures Valid() && InStep()
      ensures old(crashPoints) <= crashPoints
      ensures !escaped ==> positions == Advanced(old(positions), m)
      ensures !raised ==> !escaped && !Unreadable(m, verdict) && ComesTo(old(Shot()), Shot(), m, verdict)
      ensures raised && !escaped ==> m in deadLetters && OffsetDone(Now(), m)
      ensures deadLetters <= old(deadLetters) + {m} && dropped <= old(dropped) + {m}
      ensures calm ==> !escaped && (raised <==> Unreadable(m, verdict))
    {
      var failed := Process(m, verdict);
      raised := failed;
      if !failed { return false, false; }
      escaped := DeadLetter(m);
      if escaped { return; }
      if positions == old(positions) && PositionOf(positions, m.partition) <= m.offset {
        Advance(m);
      }
      escaped := FlushAndCommit(m);
    }

    /**
     * `recover_pending`: buffer every pending record again, and flush. When nothing raises, every record that
     * an earlier session registered and left pending is staged.
     */
    method RecoverPending() returns (escaped: bool)
      requires Valid() && InStep()
      modifies this, db
      ensures Valid() && InStep() && positions == old(positions) && (calm ==> !escaped)
      ensures deadLetters == old(deadLetters) && dropped == old(dropped)
      ensures old(crashPoints) <= crashPoints
      ensures !escaped && old(buffers) == map[] ==> Drained()
      ensures !escaped ==> forall key | key in old(db.ledger) ::
                             key in db.ledger && db.ledger[key].state != EventPending
    {
      Others();
      var pending := set key | key in db.ledger && db.ledger[key].state == EventPending;
      assert forall key | key in db.ledger :: key in pending <==> db.ledger[key].state == EventPending;
      escaped := BufferAll(pending);
      if escaped { return; }
      if pending != {} {
        ghost var start, ledger := buffers, db.ledger;
        escaped := Flush();
        if !escaped { RecoveredAll(start, pending, ledger, db.ledger); }
      } else {
        escaped := false;
      }
    }

    /** Buffers the given records and writes them online. */
    method BufferAll(pending: set<EventKey>) returns (escaped: bool)
      requires Valid() && InStep() && forall key | key in pending ::
                                        key in db.ledger && db.ledger[key].state == EventPending
      modifies this`buffers, this`positions, this`online
      ensures Valid() && InStep() && positions == old(positions) && (calm ==> !escaped)
      ensures pending == {} ==> buffers == old(buffers) && !escaped
      ensures !escaped ==> forall key | key in pending :: key.eventId in BufferOf(buffers, key.view)
    {
      var rest := pending;
      while rest != {}
        invariant Valid() && InStep() && positions == old(positions) && rest <= pending
        invariant pending == {} ==> buffers == old(buffers)
        invariant forall key | key in pending - rest :: key.eventId in BufferOf(buffers, key.view)
        decreases rest
      {
        var key :| key in rest;
        rest := rest - {key};
        EntryKeeps(buffers, key, Entry(buffers, key, db.ledger[key].payload, None));
        var failed := BufferOne(key, None);
        if failed { return true; }
      }
      escaped := false;
    }

    /**
     * One session of the consumer: recover, handle what is delivered, flush now and then, and flush at the
     * end. Whatever step a crash falls on, the durable state there is offset-safe, and the committed
     * offsets of the session never went back on the way to it. A calm session ends by itself, with every buffer
     * empty, every message it was given settled, and none dead-lettered or dropped that did not come with it.
     */
    method Session(incoming: seq<Message>, verdicts: seq<Verdict>) returns (escaped: bool)
      requires Valid() && InStep() && InOrder(log, positions, incoming) && |verdicts| == |incoming|
      modifies this, db
      ensures Valid() && CrashSafe() && old(crashPoints) <= crashPoints
      ensures calm ==> !escaped && Drained()
      ensures calm ==> forall m | m in incoming :: Settled(Now(), m)
      ensures deadLetters <= old(deadLetters) + (set m | m in incoming)
      ensures dropped <= old(dropped) + (set m | m in incoming)
    {
      escaped := RecoverPending();
      if escaped { return; }
      escaped := HandleAll(incoming, verdicts);
      var failed := Flush();
      if calm { DrainedIsSettled(log, positions, buffers, Now()); }
      escaped := escaped || failed;
    }

    /** Handles what is delivered, and flushes now and then. */
    method HandleAll(incoming: seq<Message>, verdicts: seq<Verdict>) returns (escaped: bool)
      requires Valid() && InStep() && InOrder(log, positions, incoming) && |verdicts| == |incoming|
      modifies this, db
      ensures Valid() && InStep() && old(crashPoints) <= crashPoints && (calm ==> !escaped)
      ensures !escaped ==> forall k | 0 <= k < |incoming| :: Delivered(log, positions, incoming[k])
      ensures deadLetters <= old(deadLetters) + (set m | m in incoming)
      ensures dropped <= old(dropped) + (set m | m in incoming)
    {
      ghost var all := set m | m in incoming;
      escaped := false;
      var i := 0;
      while i < |incoming| && !escaped
        invariant 0 <= i <= |incoming| && Valid() && InStep() && (calm ==> !escaped)
        invariant old(crashPoints) <= crashPoints
        invariant !escaped ==> InOrder(log, positions, incoming[i..])
        invariant !escaped ==> forall k | 0 <= k < i :: Delivered(log, positions, incoming[k])
        invariant deadLetters <= old(deadLetters) + all && dropped <= old(dropped) + all
        decreases |incoming| - i, !escaped
      {
        DeliveredStays(log, positions, incoming[i]);
        escaped := Round(incoming[i], verdicts[i]);
        if !escaped {
          assert incoming[i..][1..] == incoming[i + 1..];
          i := i + 1;
        }
      }
    }

    /** One message, and perhaps a flush. */
    method Round(m: Message, verdict: Verdict) returns (escaped: bool)
      requires Valid() && InStep() && NextInOrder(log, positions, m)
      modifies this, db
      ensures Valid() && InStep() && old(crashPoints) <= crashPoints && (calm ==> !escaped)
      ensures !escaped ==> positions == Advanced(old(positions), m)
      ensures deadLetters <= old(deadLetters) + {m} && dropped <= old(dropped) + {m}
    {
      ghost var raised;
      escaped, raised := Handle(m, verdict);
      if escaped { return; }
      if * { escaped := Flush(); }
    }
  }
}
