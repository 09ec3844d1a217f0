/** The online store: Redis hashes, the upsert script over its flat argument list, and reads. */
module Online {
  import opened Common
  import opened TextOrder
  import opened Instants
  import opened OnlineRows

  type Hash = map<string, string>

  const TIMESTAMP_FIELD := "__event_timestamp"
  const ID_FIELD := "__event_id"

  /** A stream event as the online store receives it; values are JSON text. */
  datatype Event = Event(entity: EntityKey, eventId: string, at: Instant, values: map<string, string>)

  function RowOf(event: Event): Row
    requires Valid(event.at)
  {
    Row(event.entity, Elapsed(event.at), event.eventId, event.values)
  }

  /** Feature names start with a letter, so they never collide with the two bookkeeping fields. */
  predicate FeatureNames(names: set<string>) {
    forall name | name in names :: name != "" && 'a' <= name[0] <= 'z'
  }

  /** An event as it is sent to Redis: its timestamp is text. */
  datatype Write = Write(entity: EntityKey, timestamp: string, id: string, values: map<string, string>)

  function Flatten(event: Event): Write {
    Write(event.entity, Text(event.at), event.eventId, event.values)
  }

  /** The whole hash of one write: its stamp and every value. */
  function HashOf(write: Write): Hash {
    write.values + map[TIMESTAMP_FIELD := write.timestamp, ID_FIELD := write.id]
  }

  // ---- the script --------------------------------------------------------------------------------

  /** The stored stamp is not older than the offered one; both are compared as text. */
  predicate NotNewer(stored: Hash, timestamp: string, id: string) {
    TIMESTAMP_FIELD in stored &&
      (|| Less(timestamp, stored[TIMESTAMP_FIELD])
       || (stored[TIMESTAMP_FIELD] == timestamp && ID_FIELD in stored && !Less(stored[ID_FIELD], id)))
  }

  /** Writes name/value pairs of a flat list, in order. */
  function WithPairs(hash: Hash, pairs: seq<string>): Hash
    requires |pairs| % 2 == 0
    decreases |pairs|
  {
    if pairs == [] then hash
    else WithPairs(hash, pairs[..|pairs| - 2])[pairs[|pairs| - 2] := pairs[|pairs| - 1]]
  }

  function Scripted(hash: Hash, args: seq<string>): Hash
    requires |args| >= 2 && |args| % 2 == 0
  {
    if NotNewer(hash, args[0], args[1]) then hash
    else WithPairs(hash[TIMESTAMP_FIELD := args[0]][ID_FIELD := args[1]], args[2..])
  }

  class Redis {
    var hashes: map<Slot, Hash>

    function Get(slot: Slot): Hash
      reads this
    {
      if slot in hashes then hashes[slot] else map[]
    }

    constructor ()
      ensures hashes == map[]
    {
      hashes := map[];
    }

    /** The Lua script: reject an event that is not newer, else overwrite the stamp and then pair after pair. */
    method RunUpsertScript(slot: Slot, args: seq<string>) returns (accepted: bool)
      requires |args| >= 2 && |args| % 2 == 0
      modifies this
      ensures accepted <==> !NotNewer(old(Get(slot)), args[0], args[1])
      ensures hashes == if accepted then old(hashes)[slot := Scripted(old(Get(slot)), args)] else old(hashes)
    {
      var hash := Get(slot);
      if TIMESTAMP_FIELD in hash {
        var oldTs := hash[TIMESTAMP_FIELD];
        LessTotal(oldTs, args[0]);
        if Less(args[0], oldTs) || (oldTs == args[0] && ID_FIELD in hash && !Less(hash[ID_FIELD], args[1])) {
          return false;
        }
      }
      hashes := hashes[slot := hash[TIMESTAMP_FIELD := args[0]][ID_FIELD := args[1]]];
      ghost var stamped := hashes[slot];
      var i := 2;
      while i < |args|
        invariant 2 <= i <= |args| && i % 2 == 0
        invariant slot in hashes && hashes == old(hashes)[slot := WithPairs(stamped, args[2..i])]
      {
        assert args[2..i + 2] == args[2..i] + [args[i], args[i + 1]];
        assert args[2..i + 2][..|args[2..i + 2]| - 2] == args[2..i];
        hashes := hashes[slot := hashes[slot][args[i] := args[i + 1]]];
        i := i + 2;
      }
      assert args[2..|args|] == args[2..];
      accepted := true;
    }

    /** `OnlineStore.upsert`: flattens the event, values sorted by name, and runs the script on its slot. */
    method Upsert(view: ViewRef, event: Event) returns (accepted: bool)
      requires FeatureNames(event.values.Keys)
      modifies this
      ensures hashes == UpsertedHashes(old(hashes), view, Flatten(event))
      ensures accepted <==> !NotNewer(old(Get(Slot(view, event.entity))), Text(event.at), event.eventId)
    {
      accepted := Send(view, Flatten(event));
    }

    method Send(view: ViewRef, write: Write) returns (accepted: bool)
      requires FeatureNames(write.values.Keys)
      modifies this
      ensures hashes == UpsertedHashes(old(hashes), view, write)
      ensures accepted <==> !NotNewer(old(Get(Slot(view, write.entity))), write.timestamp, write.id)
    {
      var pairs := SortedPairs(write.values);
      var args := [write.timestamp, write.id] + pairs;
      assert args[2..] == pairs;
      WrittenIsHashOf(Get(Slot(view, write.entity)), write, pairs);
      accepted := RunUpsertScript(Slot(view, write.entity), args);
    }

    /** One entity and one view of `_read`: the status, then each requested value or nothing. */
    method ReadView(values: map<string, string>, read: ViewRead, code: map<string, string> -> EntityKey, start: Served)
      returns (row: Served)
      requires read.joinKeys <= values.Keys
      ensures row == WithView(hashes, values, read, code, start)
    {
      var stored := Get(SlotFor(values, read, code));
      row := start[read.view.name + "__status" := Some(if stored != map[] then "present" else "missing")];
      for i := 0 to |read.names|
        invariant row == WithNames(stored, read, start[read.view.name + "__status" := StatusOf(stored)], i)
      {
        var name := read.names[i];
        row := row[read.view.name + "__" + name := if name in stored then Some(stored[name]) else None];
      }
    }

    /** One entity of `_read`, view by view. */
    method ReadEntity(values: map<string, string>, views: seq<ViewRead>, code: map<string, string> -> EntityKey)
      returns (r: Result<Served, set<string>>)
      ensures r.Ok? <==> HasKeys(values, views)
      ensures r.Err? ==> exists k :: 0 <= k < |views| && r.error == views[k].joinKeys - values.Keys != {}
      ensures r.Ok? ==> r.value == WithViews(hashes, values, views, code)
    {
      var row := Echoed(values);
      for k := 0 to |views|
        invariant row == WithViews(hashes, values, views[..k], code) && HasKeys(values, views[..k])
      {
        var missing := views[k].joinKeys - values.Keys;
        if missing != {} {
          return Err(missing);
        }
        ViewsStep(hashes, values, views, code, k);
        row := ReadView(values, views[k], code, row);
      }
      assert views[..|views|] == views;
      r := Ok(row);
    }

    /**
     * `_read`, for features already resolved and grouped by view. It refuses exactly when an entity lacks a join
     * key of some view; otherwise there is one row per entity, in order, with every view's status and values.
     */
    method ReadAll(entities: seq<map<string, string>>, views: seq<ViewRead>, code: map<string, string> -> EntityKey)
      returns (r: Result<seq<Served>, set<string>>)
      ensures r.Ok? <==> forall values | values in entities :: HasKeys(values, views)
      ensures r.Ok? ==> |r.value| == |entities| && ServedSoFar(hashes, entities, views, code, r.value)
    {
      var rows: seq<Served> := [];
      for i := 0 to |entities|
        invariant |rows| == i && ServedSoFar(hashes, entities, views, code, rows)
        invariant forall j | 0 <= j < i :: HasKeys(entities[j], views)
      {
        var row := ReadEntity(entities[i], views, code);
        if row.Err? {
          return Err(row.error);
        }
        rows := rows + [row.value];
      }
      r := Ok(rows);
    }
  }

  lemma ViewsStep(hashes: map<Slot, Hash>, values: map<string, string>, views: seq<ViewRead>,
                  code: map<string, string> -> EntityKey, k: nat)
    requires k < |views| && HasKeys(values, views[..k]) && views[k].joinKeys - values.Keys == {}
    ensures views[k].joinKeys <= values.Keys && HasKeys(values, views[..k + 1])
    ensures WithViews(hashes, values, views[..k + 1], code)
            == WithView(hashes, values, views[k], code, WithViews(hashes, values, views[..k], code))
  {
    assert views[..k + 1][..k] == views[..k];
    forall key | key in views[k].joinKeys ensures key in values.Keys {
      assert key !in views[k].joinKeys - values.Keys;
    }
    assert views[..k + 1] == views[..k] + [views[k]];
  }

  ghost predicate ServedSoFar(hashes: map<Slot, Hash>, entities: seq<map<string, string>>, views: seq<ViewRead>,
                              code: map<string, string> -> EntityKey, rows: seq<Served>)
  {
    |rows| <= |entities| && forall j | 0 <= j < |rows| :: rows[j] == WithViews(hashes, entities[j], views, code)
  }

  /** The entity has every join key of every view. */
  ghost predicate HasKeys(values: map<string, string>, views: seq<ViewRead>) {
    forall k | 0 <= k < |views| :: views[k].joinKeys <= values.Keys
  }

  /** The features of one view that a read asks for. */
  datatype ViewRead = ViewRead(view: ViewRef, joinKeys: set<string>, names: seq<string>)

  /** A response row: the entity's own values and what each view adds, as a dictionary. */
  type Served = map<string, Option<string>>

  function Echoed(values: map<string, string>): Served {
    map key | key in values :: Some(values[key])
  }

  function SlotFor(values: map<string, string>, read: ViewRead, code: map<string, string> -> EntityKey): Slot {
    Slot(read.view, code(map key | key in values && key in read.joinKeys :: values[key]))
  }

  function StatusOf(stored: Hash): Option<string> {
    Some(if stored != map[] then "present" else "missing")
  }

  function WithNames(stored: Hash, read: ViewRead, start: Served, n: nat): Served
    requires n <= |read.names|
  {
    if n == 0 then start
    else
      var name := read.names[n - 1];
      var found := if name in stored then Some(stored[name]) else None;
      WithNames(stored, read, start, n - 1)[read.view.name + "__" + name := found]
  }

  function WithView(hashes: map<Slot, Hash>, values: map<string, string>, read: ViewRead,
                    code: map<string, string> -> EntityKey, start: Served): Served
  {
    var slot := SlotFor(values, read, code);
    var stored := if slot in hashes then hashes[slot] else map[];
    WithNames(stored, read, start[read.view.name + "__status" := StatusOf(stored)], |read.names|)
  }

  function WithViews(hashes: map<Slot, Hash>, values: map<string, string>, views: seq<ViewRead>,
                     code: map<string, string> -> EntityKey): Served
  {
    if views == [] then Echoed(values)
    else WithView(hashes, values, views[|views| - 1], code, WithViews(hashes, values, views[..|views| - 1], code))
  }

  /** The output names of a view: its status and its features. */
  function OutputNames(read: ViewRead): set<string> {
    {read.view.name + "__status"} + set name | name in read.names :: read.view.name + "__" + name
  }

  lemma {:induction false} NamesWritten(stored: Hash, read: ViewRead, start: Served, n: nat, output: string)
    requires n <= |read.names|
    ensures (forall i | 0 <= i < n :: output != read.view.name + "__" + read.names[i]) ==>
              (output in WithNames(stored, read, start, n) <==> output in start)
              && (output in start ==> WithNames(stored, read, start, n)[output] == start[output])
    ensures forall i | 0 <= i < n && output == read.view.name + "__" + read.names[i] ::
              output in WithNames(stored, read, start, n)
              && WithNames(stored, read, start, n)[output]
                 == if read.names[i] in stored then Some(stored[read.names[i]]) else None
  {
    if n > 0 {
      NamesWritten(stored, read, start, n - 1, output);
      forall i | 0 <= i < n && output == read.view.name + "__" + read.names[i]
        ensures output == read.view.name + "__" + read.names[n - 1] ==> read.names[i] == read.names[n - 1]
      {
        if output == read.view.name + "__" + read.names[n - 1] {
          SameSuffix(read.view.name + "__", read.names[i], read.names[n - 1]);
        }
      }
    }
  }

  lemma SameSuffix(prefix: string, a: string, b: string)
    requires prefix + a == prefix + b
    ensures a == b
  {
    assert (prefix + a)[|prefix|..] == a && (prefix + b)[|prefix|..] == b;
  }

  /** No later view of the request writes an output name of the k-th. */
  ghost predicate OwnNames(views: seq<ViewRead>, k: nat)
    requires k < |views|
  {
    forall l | k < l < |views| :: OutputNames(views[l]) !! OutputNames(views[k])
  }

  lemma {:induction false} LaterViewsKeep(hashes: map<Slot, Hash>, values: map<string, string>, views: seq<ViewRead>,
                                          code: map<string, string> -> EntityKey, k: nat, output: string)
    requires k < |views| && OwnNames(views, k) && output in OutputNames(views[k])
    ensures var row, then' := WithViews(hashes, values, views[..k + 1], code), WithViews(hashes, values, views, code);
            (output in row <==> output in then') && (output in row ==> row[output] == then'[output])
  {
    if k + 1 == |views| {
      assert views[..k + 1] == views;
    } else {
      var init, last := views[..|views| - 1], views[|views| - 1];
      assert OwnNames(init, k);
      assert init[..k + 1] == views[..k + 1];
      LaterViewsKeep(hashes, values, init, code, k, output);
      assert output !in OutputNames(last);
      var stored := if SlotFor(values, last, code) in hashes then hashes[SlotFor(values, last, code)] else map[];
      var start := WithViews(hashes, values, init, code)[last.view.name + "__status" := StatusOf(stored)];
      NamesWritten(stored, last, start, |last.names|, output);
    }
  }

  /** The pairs of a flat list, as a map. */
  ghost predicate PairsOf(pairs: seq<string>, values: map<string, string>) {
    |pairs| % 2 == 0 && WithPairs(map[], pairs) == values
  }

  lemma {:induction false} PairsWrite(hash: Hash, pairs: seq<string>)
    requires |pairs| % 2 == 0
    ensures WithPairs(hash, pairs) == hash + WithPairs(map[], pairs)
    decreases |pairs|
  {
    if pairs != [] {
      PairsWrite(hash, pairs[..|pairs| - 2]);
    }
  }

  /** `sorted(event.values.items())`, flattened. */
  method SortedPairs(values: map<string, string>) returns (pairs: seq<string>)
    ensures PairsOf(pairs, values)
    ensures InNameOrder(pairs)
  {
    pairs := [];
    var rest := values.Keys;
    while rest != {}
      invariant rest <= values.Keys
      invariant |pairs| % 2 == 0 && PairsBut(pairs, values, rest)
      invariant NamesBefore(pairs, rest) && InNameOrder(pairs)
      decreases rest
    {
      ghost var first := LeastText(rest);
      var name :| name in rest && forall other | other in rest :: other == name || Less(name, other);
      PairsGrow(pairs, values, rest, name);
      OrderGrows(pairs, rest, name, values[name]);
      pairs := pairs + [name, values[name]];
      rest := rest - {name};
    }
    assert values == map name | name in values && name !in rest :: values[name];
  }

  ghost predicate InNameOrder(pairs: seq<string>) {
    forall i, j | 0 <= i < j < |pairs| / 2 :: Less(pairs[2 * i], pairs[2 * j])
  }

  ghost predicate NamesBefore(pairs: seq<string>, rest: set<string>) {
    forall i, name | 0 <= i < |pairs| / 2 && name in rest :: Less(pairs[2 * i], name)
  }

  lemma OrderGrows(pairs: seq<string>, rest: set<string>, name: string, value: string)
    requires |pairs| % 2 == 0 && InNameOrder(pairs) && NamesBefore(pairs, rest)
    requires name in rest && forall other | other in rest :: other == name || Less(name, other)
    ensures InNameOrder(pairs + [name, value]) && NamesBefore(pairs + [name, value], rest - {name})
  {}

  /** The pairs of every name outside `rest`. */
  ghost predicate PairsBut(pairs: seq<string>, values: map<string, string>, rest: set<string>) {
    PairsOf(pairs, map name | name in values && name !in rest :: values[name])
  }

  lemma PairsGrow(pairs: seq<string>, values: map<string, string>, rest: set<string>, name: string)
    requires rest <= values.Keys && name in rest && PairsBut(pairs, values, rest)
    ensures PairsBut(pairs + [name, values[name]], values, rest - {name})
  {
    assert (pairs + [name, values[name]])[..|pairs|] == pairs;
  }

  lemma WrittenIsHashOf(hash: Hash, write: Write, pairs: seq<string>)
    requires PairsOf(pairs, write.values) && FeatureNames(write.values.Keys)
    ensures WithPairs(hash[TIMESTAMP_FIELD := write.timestamp][ID_FIELD := write.id], pairs) == hash + HashOf(write)
  {
    var stamped := hash[TIMESTAMP_FIELD := write.timestamp][ID_FIELD := write.id];
    PairsWrite(stamped, pairs);
    assert TIMESTAMP_FIELD !in write.values && ID_FIELD !in write.values;
    assert stamped + write.values == hash + HashOf(write);
  }

  // ---- refinement --------------------------------------------------------------------------------

  /** The text is the ISO form of that time. */
  ghost predicate Shows(text: string, at: Time) {
    exists t :: Valid(t) && Elapsed(t) == at && text == Text(t)
  }

  lemma ShownTimesCompare(x: string, a: Time, y: string, b: Time)
    requires Shows(x, a) && Shows(y, b)
    ensures Less(x, y) <==> a < b
    ensures x == y <==> a == b
  {
    var s :| Valid(s) && Elapsed(s) == a && x == Text(s);
    var t :| Valid(t) && Elapsed(t) == b && y == Text(t);
    TextOrderIsTimeOrder(s, t);
  }

  /** The write carries this row. */
  ghost predicate Carries(write: Write, row: Row) {
    write.entity == row.entity && write.id == row.eventId && write.values == row.values
    && Shows(write.timestamp, row.at)
  }

  lemma FlattenCarries(event: Event)
    requires Valid(event.at)
    ensures Carries(Flatten(event), RowOf(event))
  {}

  /** The hash is the whole row, and nothing else. */
  ghost predicate Encodes(hash: Hash, row: Row) {
    && TIMESTAMP_FIELD in hash && Shows(hash[TIMESTAMP_FIELD], row.at)
    && hash == HashOf(Write(row.entity, hash[TIMESTAMP_FIELD], row.eventId, row.values))
  }

  /** The hash of a slot is the online row of that slot, carrying exactly the view's features. */
  ghost predicate SlotOk(hashes: map<Slot, Hash>, online: map<Slot, Row>, features: set<string>, slot: Slot) {
    && (slot in hashes <==> slot in online)
    && (slot in online ==>
          && online[slot].entity == slot.entity && online[slot].values.Keys == features
          && Encodes(hashes[slot], online[slot]))
  }

  ghost predicate Represents(hashes: map<Slot, Hash>, online: map<Slot, Row>, view: ViewRef, features: set<string>) {
    forall entity :: SlotOk(hashes, online, features, Slot(view, entity))
  }

  /** Text comparison of stored and offered stamps is the comparison of the rows' stamps. */
  lemma ScriptComparesStamps(hash: Hash, stored: Row, write: Write, offered: Row)
    requires Encodes(hash, stored) && Carries(write, offered)
    ensures NotNewer(hash, write.timestamp, write.id) <==> AtMost(StampOf(offered), StampOf(stored))
  {
    assert hash[ID_FIELD] == stored.eventId;
    ShownTimesCompare(write.timestamp, offered.at, hash[TIMESTAMP_FIELD], stored.at);
    LessTotal(stored.eventId, write.id);
    LessIrreflexive(write.id);
    if Less(write.id, stored.eventId) && Less(stored.eventId, write.id) {
      LessTransitive(write.id, stored.eventId, write.id);
    }
  }

  /** What an upsert does to the hashes. */
  function UpsertedHashes(hashes: map<Slot, Hash>, view: ViewRef, write: Write): map<Slot, Hash> {
    var slot := Slot(view, write.entity);
    var hash := if slot in hashes then hashes[slot] else map[];
    if NotNewer(hash, write.timestamp, write.id) then hashes else hashes[slot := hash + HashOf(write)]
  }

  function UpsertAllHashes(hashes: map<Slot, Hash>, view: ViewRef, writes: seq<Write>): map<Slot, Hash> {
    if writes == [] then hashes
    else UpsertedHashes(UpsertAllHashes(hashes, view, writes[..|writes| - 1]), view, writes[|writes| - 1])
  }

  /** The hash of the written slot, and no other, changes as the online row does. */
  lemma WrittenSlot(hashes: map<Slot, Hash>, online: map<Slot, Row>, view: ViewRef, features: set<string>,
                    write: Write, row: Row)
    requires SlotOk(hashes, online, features, Slot(view, row.entity)) && FeatureNames(features)
    requires Carries(write, row) && row.values.Keys == features
    ensures SlotOk(UpsertedHashes(hashes, view, write), Upserted(online, view, row), features, Slot(view, row.entity))
  {
    var slot := Slot(view, row.entity);
    WholeHash(write, row);
    if slot in online {
      ScriptComparesStamps(hashes[slot], online[slot], write, row);
      SameFields(hashes[slot], online[slot], write);
    } else {
      assert map[] + HashOf(write) == HashOf(write);
    }
  }

  lemma WholeHash(write: Write, row: Row)
    requires Carries(write, row)
    ensures Encodes(HashOf(write), row)
  {}

  /** Two events with the same feature names have the same fields, so the later hash hides the earlier. */
  lemma SameFields(hash: Hash, stored: Row, write: Write)
    requires Encodes(hash, stored) && stored.values.Keys == write.values.Keys
    ensures hash + HashOf(write) == HashOf(write)
  {}

  /** An accepted event with exactly the view's features replaces the whole hash: no torn mix of two rows. */
  lemma UpsertRefines(hashes: map<Slot, Hash>, online: map<Slot, Row>, view: ViewRef, features: set<string>,
                      write: Write, row: Row)
    requires Represents(hashes, online, view, features) && FeatureNames(features)
    requires Carries(write, row) && row.values.Keys == features
    ensures Represents(UpsertedHashes(hashes, view, write), Upserted(online, view, row), view, features)
  {
    var hashes', online' := UpsertedHashes(hashes, view, write), Upserted(online, view, row);
    forall entity ensures SlotOk(hashes', online', features, Slot(view, entity)) {
      assert SlotOk(hashes, online, features, Slot(view, entity));
      if entity == row.entity {
        WrittenSlot(hashes, online, view, features, write, row);
      } else {
        OtherSlot(hashes, online, view, features, write, row, Slot(view, entity));
      }
    }
  }

  lemma OtherSlot(hashes: map<Slot, Hash>, online: map<Slot, Row>, view: ViewRef, features: set<string>,
                  write: Write, row: Row, slot: Slot)
    requires SlotOk(hashes, online, features, slot)
    requires write.entity == row.entity && slot != Slot(view, row.entity)
    ensures SlotOk(UpsertedHashes(hashes, view, write), Upserted(online, view, row), features, slot)
  {
    var hashes', online' := UpsertedHashes(hashes, view, write), Upserted(online, view, row);
    assert (slot in hashes' <==> slot in hashes) && (slot in hashes ==> hashes'[slot] == hashes[slot]);
    assert (slot in online' <==> slot in online) && (slot in online ==> online'[slot] == online[slot]);
  }

  ghost predicate CarriesAll(writes: seq<Write>, rows: seq<Row>, features: set<string>) {
    |writes| == |rows| && forall i | 0 <= i < |rows| :: Carries(writes[i], rows[i]) && rows[i].values.Keys == features
  }

  /** The hashes after any sequence of upserts represent the rows after the same sequence. */
  lemma {:induction false} UpsertsRefine(hashes: map<Slot, Hash>, online: map<Slot, Row>, view: ViewRef,
                                         features: set<string>, writes: seq<Write>, rows: seq<Row>)
    requires Represents(hashes, online, view, features) && FeatureNames(features) && CarriesAll(writes, rows, features)
    ensures Represents(UpsertAllHashes(hashes, view, writes), UpsertAll(online, view, rows), view, features)
  {
    if writes != [] {
      var n := |writes| - 1;
      UpsertsRefine(hashes, online, view, features, writes[..n], rows[..n]);
      UpsertRefines(UpsertAllHashes(hashes, view, writes[..n]), UpsertAll(online, view, rows[..n]), view, features,
                    writes[n], rows[n]);
    }
  }

  predicate WholeEvents(events: seq<Event>, features: set<string>) {
    forall e | e in events :: Valid(e.at) && e.values.Keys == features
  }

  function Writes(events: seq<Event>): seq<Write> {
    seq(|events|, i requires 0 <= i < |events| => Flatten(events[i]))
  }

  function Rows(events: seq<Event>): seq<Row>
    requires forall e | e in events :: Valid(e.at)
  {
    seq(|events|, i requires 0 <= i < |events| => assert events[i] in events; RowOf(events[i]))
  }

  lemma EventsCarry(events: seq<Event>, features: set<string>)
    requires WholeEvents(events, features)
    ensures CarriesAll(Writes(events), Rows(events), features)
    ensures forall row :: row in Rows(events) <==> exists e :: e in events && row == RowOf(e)
  {
    forall i | 0 <= i < |events|
      ensures Carries(Writes(events)[i], Rows(events)[i]) && Rows(events)[i].values.Keys == features
    {
      assert events[i] in events;
      FlattenCarries(events[i]);
    }
    forall e | e in events ensures RowOf(e) in Rows(events) {
      var i :| 0 <= i < |events| && events[i] == e;
      assert Rows(events)[i] == RowOf(e);
    }
  }

  /**
   * Convergence of the real store: starting from an empty one, any two sequences of the same events, each with
   * exactly the view's features, in any order and with any repetition, leave every entity of the view with the
   * same hash, as long as distinct events of an entity have distinct stamps.
   */
  lemma HashesConverge(view: ViewRef, features: set<string>, a: seq<Event>, b: seq<Event>, entity: EntityKey)
    requires FeatureNames(features) && WholeEvents(a, features) && WholeEvents(b, features)
    requires StampsIdentify(map[], view, Rows(b)) && (forall e :: e in a <==> e in b)
    ensures var x, y := UpsertAllHashes(map[], view, Writes(a)), UpsertAllHashes(map[], view, Writes(b));
            (Slot(view, entity) in x <==> Slot(view, entity) in y)
            && (Slot(view, entity) in x ==> x[Slot(view, entity)] == y[Slot(view, entity)])
  {
    EventsCarry(a, features);
    EventsCarry(b, features);
    UpsertsConverge(map[], view, Rows(a), Rows(b));
    SameRowsSameHash(view, features, Writes(a), Rows(a), Writes(b), Rows(b), entity);
  }

  lemma SameRowsSameHash(view: ViewRef, features: set<string>, a: seq<Write>, rowsA: seq<Row>, b: seq<Write>,
                         rowsB: seq<Row>, entity: EntityKey)
    requires FeatureNames(features) && CarriesAll(a, rowsA, features) && CarriesAll(b, rowsB, features)
    requires UpsertAll(map[], view, rowsA) == UpsertAll(map[], view, rowsB)
    ensures var x, y := UpsertAllHashes(map[], view, a), UpsertAllHashes(map[], view, b);
            (Slot(view, entity) in x <==> Slot(view, entity) in y)
            && (Slot(view, entity) in x ==> x[Slot(view, entity)] == y[Slot(view, entity)])
  {
    UpsertsRefine(map[], map[], view, features, a, rowsA);
    UpsertsRefine(map[], map[], view, features, b, rowsB);
    var slot, online := Slot(view, entity), UpsertAll(map[], view, rowsA);
    var x, y := UpsertAllHashes(map[], view, a), UpsertAllHashes(map[], view, b);
    assert SlotOk(x, online, features, slot) && SlotOk(y, online, features, slot);
    if slot in x { SameEncoding(x[slot], y[slot], online[slot]); }
  }

  /** A row has one hash. */
  lemma SameEncoding(x: Hash, y: Hash, row: Row)
    requires Encodes(x, row) && Encodes(y, row)
    ensures x == y
  {
    ShownTimesCompare(x[TIMESTAMP_FIELD], row.at, y[TIMESTAMP_FIELD], row.at);
  }

  /**
   * What a reader is served: if no later view of the request reuses its output names, every feature of a view
   * shows the value of the one event that won, and nothing when there is none.
   */
  lemma WholeRowIsServed(hashes: map<Slot, Hash>, online: map<Slot, Row>, features: set<string>,
                         values: map<string, string>,
                         views: seq<ViewRead>, code: map<string, string> -> EntityKey, k: nat, i: nat)
    requires k < |views| && i < |views[k].names| && OwnNames(views, k)
    requires Represents(hashes, online, views[k].view, features) && FeatureNames(features)
             && views[k].names[i] in features
    ensures var name, slot := views[k].names[i], SlotFor(values, views[k], code);
            var output, row := views[k].view.name + "__" + name, WithViews(hashes, values, views, code);
            output in row && row[output] == if slot in online then Some(online[slot].values[name]) else None
  {
    var read, name, slot := views[k], views[k].names[i], SlotFor(values, views[k], code);
    assert SlotOk(hashes, online, features, slot);
    assert name != TIMESTAMP_FIELD && name != ID_FIELD;
    ViewWritten(hashes, values, read, code, WithViews(hashes, values, views[..k], code), i);
    assert views[..k + 1][..k] == views[..k];
    LaterViewsKeep(hashes, values, views, code, k, read.view.name + "__" + name);
    if slot in online { EncodedValue(hashes[slot], online[slot], name); }
  }

  /** Reading a view shows the stored value of each requested name. */
  lemma ViewWritten(hashes: map<Slot, Hash>, values: map<string, string>, read: ViewRead,
                    code: map<string, string> -> EntityKey, start: Served, i: nat)
    requires i < |read.names|
    ensures var slot, name := SlotFor(values, read, code), read.names[i];
            var output, row := read.view.name + "__" + name, WithView(hashes, values, read, code, start);
            output in row
            && row[output] == if slot in hashes && name in hashes[slot] then Some(hashes[slot][name]) else None
  {
    var slot := SlotFor(values, read, code);
    var stored := if slot in hashes then hashes[slot] else map[];
    var before := start[read.view.name + "__status" := StatusOf(stored)];
    NamesWritten(stored, read, before, |read.names|, read.view.name + "__" + read.names[i]);
  }

  lemma EncodedValue(hash: Hash, row: Row, name: string)
    requires Encodes(hash, row) && name in row.values && name != TIMESTAMP_FIELD && name != ID_FIELD
    ensures name in hash && hash[name] == row.values[name]
  {}
}
