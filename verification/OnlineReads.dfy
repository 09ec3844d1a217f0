/** What a reader of the online store is served, told by the events that were sent to it. */
module OnlineReads {
  import opened Common
  import opened TextOrder
  import opened Instants
  import opened OnlineRows
  import opened Online

  /** The event is one of the entity's, and none of them is later, event ids breaking ties. */
  ghost predicate Wins(events: seq<Event>, entity: EntityKey, winner: Event)
    requires forall e | e in events :: Valid(e.at)
  {
    && winner in events && winner.entity == entity
    && forall e | e in events && e.entity == entity :: NotLater(e, winner)
  }

  predicate NotLater(a: Event, b: Event)
    requires Valid(a.at) && Valid(b.at)
  {
    || Elapsed(a.at) < Elapsed(b.at)
    || (Elapsed(a.at) == Elapsed(b.at) && (a.eventId == b.eventId || Less(a.eventId, b.eventId)))
  }

  lemma NotLaterByStamp(a: Event, b: Event)
    requires Valid(a.at) && Valid(b.at) && AtMost(OnlineRows.StampOf(RowOf(a)), OnlineRows.StampOf(RowOf(b)))
    ensures NotLater(a, b)
  {}

  /** The online entry of an entity is the row of the event that wins, if the entity has any event. */
  lemma EntryWins(view: ViewRef, features: set<string>, events: seq<Event>, entity: EntityKey)
    returns (winner: Option<Event>)
    requires WholeEvents(events, features)
    ensures var online, slot := UpsertAll(map[], view, Rows(events)), Slot(view, entity);
            && (winner.None? ==> slot !in online && forall e | e in events :: e.entity != entity)
            && (winner.Some? ==>
                  Wins(events, entity, winner.value) && slot in online && online[slot] == RowOf(winner.value))
  {
    var online, slot := UpsertAll(map[], view, Rows(events)), Slot(view, entity);
    EventsCarry(events, features);
    UpsertAllKeepsGreatest(map[], view, Rows(events), slot);
    if slot in online {
      var e :| e in events && online[slot] == RowOf(e);
      winner := Some(e);
      forall other | other in events && other.entity == entity ensures NotLater(other, e) {
        Contends(view, events, entity, other);
        NotLaterByStamp(other, e);
      }
    } else {
      winner := None;
      forall e | e in events ensures e.entity != entity {
        if e.entity == entity { Contends(view, events, entity, e); }
      }
    }
  }

  lemma Contends(view: ViewRef, events: seq<Event>, entity: EntityKey, e: Event)
    requires (forall e | e in events :: Valid(e.at)) && e in events && e.entity == entity
    ensures Competes(map[], view, Rows(events), Slot(view, entity), RowOf(e))
  {
    var i :| 0 <= i < |events| && events[i] == e;
    assert Rows(events)[i] == RowOf(e);
  }

  /** The status of a view, unless one of its own features is called status. */
  lemma StatusIsServed(hashes: map<Slot, Hash>, online: map<Slot, Row>, features: set<string>,
                       values: map<string, string>, views: seq<ViewRead>, code: map<string, string> -> EntityKey,
                       k: nat)
    requires k < |views| && OwnNames(views, k) && "status" !in views[k].names
    requires Represents(hashes, online, views[k].view, features)
    ensures var status, row := views[k].view.name + "__status", WithViews(hashes, values, views, code);
            status in row
            && row[status] == Some(if SlotFor(values, views[k], code) in online then "present" else "missing")
  {
    var read, slot := views[k], SlotFor(values, views[k], code);
    var status := read.view.name + "__status";
    assert SlotOk(hashes, online, features, slot);
    var stored := if slot in hashes then hashes[slot] else map[];
    var before := WithViews(hashes, values, views[..k], code)[status := StatusOf(stored)];
    forall i | 0 <= i < |read.names| ensures status != read.view.name + "__" + read.names[i] {
      if status == read.view.name + "__" + read.names[i] {
        assert status == read.view.name + "__" + "status";
        SameSuffix(read.view.name + "__", "status", read.names[i]);
      }
    }
    NamesWritten(stored, read, before, |read.names|, status);
    assert views[..k + 1][..k] == views[..k];
    LaterViewsKeep(hashes, values, views, code, k, status);
    if slot in online { assert TIMESTAMP_FIELD in hashes[slot]; }
  }

  /**
   * What is served: if the store got these events of the view, an entity of which it got none is missing and every
   * feature of it null; any other is present and every feature shows the value of its winning event.
   */
  lemma ServedFromEvents(hashes: map<Slot, Hash>, features: set<string>, events: seq<Event>,
                         values: map<string, string>, views: seq<ViewRead>, code: map<string, string> -> EntityKey,
                         k: nat)
    returns (winner: Option<Event>)
    requires k < |views| && OwnNames(views, k) && "status" !in views[k].names
    requires FeatureNames(features) && WholeEvents(events, features)
    requires Represents(hashes, UpsertAll(map[], views[k].view, Rows(events)), views[k].view, features)
    requires forall name | name in views[k].names :: name in features
    ensures var view, row := views[k].view, WithViews(hashes, values, views, code);
            var entity := code(map key | key in values && key in views[k].joinKeys :: values[key]);
            && view.name + "__status" in row
            && (winner.None? ==>
                  && (forall e | e in events :: e.entity != entity)
                  && row[view.name + "__status"] == Some("missing")
                  && forall name | name in views[k].names ::
                       view.name + "__" + name in row && row[view.name + "__" + name] == None)
            && (winner.Some? ==>
                  && Wins(events, entity, winner.value)
                  && row[view.name + "__status"] == Some("present")
                  && forall name | name in views[k].names ::
                       && name in winner.value.values && view.name + "__" + name in row
                       && row[view.name + "__" + name] == Some(winner.value.values[name]))
  {
    var view, entity := views[k].view, SlotFor(values, views[k], code).entity;
    var online := UpsertAll(map[], view, Rows(events));
    winner := EntryWins(view, features, events, entity);
    StatusIsServed(hashes, online, features, values, views, code, k);
    var row := WithViews(hashes, values, views, code);
    forall name | name in views[k].names
      ensures winner.Some? ==> name in winner.value.values
      ensures view.name + "__" + name in row
              && row[view.name + "__" + name] == if winner.Some? then Some(winner.value.values[name]) else None
    {
      var i :| 0 <= i < |views[k].names| && views[k].names[i] == name;
      WholeRowIsServed(hashes, online, features, values, views, code, k, i);
    }
  }

  /** The entity's own keys are echoed, unless a view of the request has an output of that name. */
  lemma {:induction false} KeysAreEchoed(hashes: map<Slot, Hash>, values: map<string, string>, views: seq<ViewRead>,
                                         code: map<string, string> -> EntityKey, key: string)
    requires key in values && forall k | 0 <= k < |views| :: key !in OutputNames(views[k])
    ensures key in WithViews(hashes, values, views, code)
            && WithViews(hashes, values, views, code)[key] == Some(values[key])
  {
    if views != [] {
      var init, last := views[..|views| - 1], views[|views| - 1];
      KeysAreEchoed(hashes, values, init, code, key);
      assert key !in OutputNames(last);
      var slot := SlotFor(values, last, code);
      var stored := if slot in hashes then hashes[slot] else map[];
      var start := WithViews(hashes, values, init, code)[last.view.name + "__status" := StatusOf(stored)];
      NamesWritten(stored, last, start, |last.names|, key);
    }
  }
}
