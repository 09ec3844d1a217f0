/** The online store seen as one row per view and entity, and what any sequence of upserts leaves there. */
module OnlineRows {
  import opened Common
  import opened TextOrder

  type EntityKey = string

  /** A feature row: its entity, its stamp and its feature values as JSON text. */
  datatype Row = Row(entity: EntityKey, at: Time, eventId: string, values: map<string, string>)

  function StampOf(row: Row): Stamp {
    Stamp(row.at, row.eventId)
  }

  /** The online key: the view and the entity's join-key values. */
  datatype Slot = Slot(view: ViewRef, entity: EntityKey)

  /** The online write: it keeps the later of the two rows. */
  function Upserted(online: map<Slot, Row>, view: ViewRef, row: Row): map<Slot, Row> {
    var slot := Slot(view, row.entity);
    if slot in online && AtMost(StampOf(row), StampOf(online[slot])) then online else online[slot := row]
  }

  function UpsertAll(online: map<Slot, Row>, view: ViewRef, rows: seq<Row>): map<Slot, Row> {
    if rows == [] then online
    else Upserted(UpsertAll(online, view, rows[..|rows| - 1]), view, rows[|rows| - 1])
  }

  /** The entity's online entry is at or after the row. */
  predicate Dominated(online: map<Slot, Row>, view: ViewRef, row: Row) {
    Slot(view, row.entity) in online && AtMost(StampOf(row), StampOf(online[Slot(view, row.entity)]))
  }

  lemma UpsertKeepsDominated(online: map<Slot, Row>, view: ViewRef, row: Row, other: ViewRef, seen: Row)
    requires Dominated(online, other, seen)
    ensures Dominated(Upserted(online, view, row), other, seen)
  {
    var slot := Slot(view, row.entity);
    if slot == Slot(other, seen.entity) && slot in online && !AtMost(StampOf(row), StampOf(online[slot])) {
      AtMostTotal(StampOf(row), StampOf(online[slot]));
      AtMostTransitive(StampOf(seen), StampOf(online[slot]), StampOf(row));
    }
  }

  /** One row per entity, each at or after every scanned row of that entity. */
  ghost predicate IsLatest(latest: seq<Row>, scanned: set<Row>) {
    && (forall i | 0 <= i < |latest| :: latest[i] in scanned)
    && (forall i, j | 0 <= i < j < |latest| :: latest[i].entity != latest[j].entity)
    && (forall row | row in scanned :: exists i :: Covers(latest, i, row))
  }

  ghost predicate Covers(latest: seq<Row>, i: int, row: Row) {
    0 <= i < |latest| && latest[i].entity == row.entity && AtMost(StampOf(row), StampOf(latest[i]))
  }

  /** The row competes for the slot: it is the entry already there, or a written row of that entity. */
  ghost predicate Competes(online: map<Slot, Row>, view: ViewRef, rows: seq<Row>, slot: Slot, row: Row) {
    (slot in online && row == online[slot]) || (row in rows && slot == Slot(view, row.entity))
  }

  /** After any sequence of upserts a slot holds one of its competitors, and none of them is later. */
  lemma {:induction false} UpsertAllKeepsGreatest(online: map<Slot, Row>, view: ViewRef, rows: seq<Row>, slot: Slot)
    ensures slot in UpsertAll(online, view, rows) <==> exists row :: Competes(online, view, rows, slot, row)
    ensures slot in UpsertAll(online, view, rows) ==>
              Competes(online, view, rows, slot, UpsertAll(online, view, rows)[slot])
    ensures forall row | Competes(online, view, rows, slot, row) ::
              slot in UpsertAll(online, view, rows)
              && AtMost(StampOf(row), StampOf(UpsertAll(online, view, rows)[slot]))
  {
    var all := UpsertAll(online, view, rows);
    if rows == [] {
      if slot in online { assert Competes(online, view, rows, slot, online[slot]); }
    } else {
      var init, last := rows[..|rows| - 1], rows[|rows| - 1];
      UpsertAllKeepsGreatest(online, view, init, slot);
      var before := UpsertAll(online, view, init);
      forall row ensures Competes(online, view, rows, slot, row) <==>
                         Competes(online, view, init, slot, row) || (row == last && slot == Slot(view, last.entity)) {
        assert rows == init + [last];
      }
      forall row | Competes(online, view, rows, slot, row)
        ensures slot in all && AtMost(StampOf(row), StampOf(all[slot]))
      {
        if Competes(online, view, init, slot, row) && slot == Slot(view, last.entity) {
          AtMostTotal(StampOf(last), StampOf(before[slot]));
          if all != before { AtMostTransitive(StampOf(row), StampOf(before[slot]), StampOf(last)); }
        }
      }
      if slot in all { assert Competes(online, view, rows, slot, all[slot]); }
    }
  }

  /** Within a slot, a stamp identifies a row: distinct payloads have distinct (timestamp, event id). */
  ghost predicate StampsIdentify(online: map<Slot, Row>, view: ViewRef, rows: seq<Row>) {
    forall slot, a, b | Competes(online, view, rows, slot, a) && Competes(online, view, rows, slot, b) ::
      StampOf(a) == StampOf(b) ==> a == b
  }

  /** Two sequences whose competitors dominate one another leave the same store. */
  lemma SameGreatest(online: map<Slot, Row>, view: ViewRef, a: seq<Row>, b: seq<Row>)
    requires StampsIdentify(online, view, b)
    requires forall row | row in a :: row in b
    requires forall row | row in b :: exists i :: Covers(a, i, row)
    ensures UpsertAll(online, view, a) == UpsertAll(online, view, b)
  {
    var x, y := UpsertAll(online, view, a), UpsertAll(online, view, b);
    forall slot ensures (slot in x <==> slot in y) && (slot in x ==> x[slot] == y[slot]) {
      UpsertAllKeepsGreatest(online, view, a, slot);
      UpsertAllKeepsGreatest(online, view, b, slot);
      forall row | Competes(online, view, a, slot, row) ensures Competes(online, view, b, slot, row) {}
      if slot in y {
        var winner := y[slot];
        if !(slot in online && winner == online[slot]) {
          var i :| Covers(a, i, winner);
          assert a[i] in a && Competes(online, view, a, slot, a[i]);
          AtMostTransitive(StampOf(winner), StampOf(a[i]), StampOf(x[slot]));
        } else {
          assert Competes(online, view, a, slot, winner);
        }
        AtMostAntisymmetric(StampOf(x[slot]), StampOf(winner));
      }
    }
  }

  /**
   * Online convergence: the order in which events arrive, and how often, does not matter. Two sequences
   * of the same events leave the same store, from any store to start with.
   */
  lemma UpsertsConverge(online: map<Slot, Row>, view: ViewRef, a: seq<Row>, b: seq<Row>)
    requires StampsIdentify(online, view, b) && (forall row :: row in a <==> row in b)
    ensures UpsertAll(online, view, a) == UpsertAll(online, view, b)
  {
    forall row | row in b ensures exists i :: Covers(a, i, row) {
      var i :| 0 <= i < |a| && a[i] == row;
      assert Covers(a, i, row);
    }
    SameGreatest(online, view, a, b);
  }

  /** Writing only the latest row of each entity ends in the store that writing every scanned row ends in. */
  lemma LatestSuffices(online: map<Slot, Row>, view: ViewRef, latest: seq<Row>, table: set<Row>, scanned: seq<Row>)
    requires StampsIdentify(online, view, scanned)
    requires IsLatest(latest, table) && (forall row :: row in table <==> row in scanned)
    ensures UpsertAll(online, view, latest) == UpsertAll(online, view, scanned)
  {
    SameGreatest(online, view, latest, scanned);
  }
}
