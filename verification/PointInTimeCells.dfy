/** What a reader of a historical query sees in each cell, told by the observation and the feature rows alone. */
module PointInTimeCells {
  import opened Common
  import opened TextOrder
  import opened PointInTime

  // ---- the observation's own columns -----------------------------------------------------------------------

  predicate DistinctNames(fields: seq<Field>) {
    forall i, j | 0 <= i < j < |fields| :: fields[i].name != fields[j].name
  }

  lemma {:induction false} LookupFirst(header: seq<string>, cells: seq<Cell>, name: string, c: nat)
    requires |header| == |cells| && c < |header| && header[c] == name && name !in header[..c]
    ensures Lookup(header, cells, name) == cells[c]
    decreases c
  {
    if c > 0 {
      assert header[0] in header[..c];
      assert header[1..][..c - 1] == header[..c][1..];
      LookupFirst(header[1..], cells[1..], name, c - 1);
    }
  }

  lemma {:induction false} LookupNowhere(header: seq<string>, cells: seq<Cell>, name: string)
    requires |header| == |cells| && name !in header
    ensures Lookup(header, cells, name) == None
  {
    if header != [] { LookupNowhere(header[1..], cells[1..], name); }
  }

  /**
   * The table a query starts from: one line per observation, in order and at its time, with the columns of the first
   * observation; each cell is the observation's own field of that name, or null when it has none.
   */
  lemma OwnColumns(observations: seq<Observation>, i: nat, c: nat, k: nat)
    requires i < |observations| && DistinctNames(observations[i].fields)
    requires c < |observations[0].fields| && k < |observations[i].fields|
    ensures var start := Start(observations); var name := observations[0].fields[c].name;
            && |start.lines| == |observations| && |start.header| == |observations[0].fields|
            && start.lines[i].id == i && start.lines[i].at == observations[i].at
            && start.header[c] == name && |start.lines[i].cells| == |start.header|
            && (observations[i].fields[k].name == name ==> start.lines[i].cells[c] == observations[i].fields[k].cell)
            && ((forall f | f in observations[i].fields :: f.name != name) ==> start.lines[i].cells[c] == None)
  {
    var fields, name := observations[i].fields, observations[0].fields[c].name;
    var names, cells := NamesOf(fields), seq(|fields|, j requires 0 <= j < |fields| => fields[j].cell);
    if fields[k].name == name {
      forall j | 0 <= j < k ensures names[j] != name {}
      LookupFirst(names, cells, name, k);
    }
    if forall f | f in fields :: f.name != name {
      forall j | 0 <= j < |fields| ensures names[j] != name { assert fields[j] in fields; }
      LookupNowhere(names, cells, name);
    }
  }

  // ---- which rows match ------------------------------------------------------------------------------------

  /** The line's first column of this name holds a value, and the row has the same one. */
  ghost predicate SameKey(header: seq<string>, cells: seq<Cell>, name: string, f: FeatureRow)
    requires |header| == |cells|
  {
    exists c :: 0 <= c < |header| && header[c] == name && name !in header[..c]
                && cells[c].Some? && name in f.keys && f.keys[name] == cells[c]
  }

  lemma {:induction false} FirstColumn(header: seq<string>, name: string) returns (c: nat)
    requires name in header
    ensures c < |header| && header[c] == name && name !in header[..c]
  {
    if header[0] == name {
      c := 0;
    } else {
      var rest := FirstColumn(header[1..], name);
      c := rest + 1;
      forall i | 0 <= i < c ensures header[i] != name {
        if i > 0 { assert header[i] == header[1..][..rest][i - 1]; }
      }
    }
  }

  lemma KeyCell(header: seq<string>, line: Line, name: string, f: FeatureRow)
    requires |header| == |line.cells| && name in header
    ensures SameKey(header, line.cells, name, f) <==>
              var cell := Lookup(header, line.cells, name);
              cell.Some? && cell == if name in f.keys then f.keys[name] else None
  {
    var c := FirstColumn(header, name);
    LookupFirst(header, line.cells, name, c);
    assert forall other | 0 <= other < |header| && header[other] == name && name !in header[..other] :: other == c;
  }

  /** A feature row matches a line exactly when it agrees on every join key, none of them null, and is not later. */
  lemma MatchesExactly(header: seq<string>, line: Line, joinKeys: seq<string>, f: FeatureRow)
    requires |header| == |line.cells| && forall name | name in joinKeys :: name in header
    ensures Matches(LineKey(header, line, joinKeys), line.at, joinKeys, f) <==>
              f.at <= line.at && forall name | name in joinKeys :: SameKey(header, line.cells, name, f)
  {
    var key, row := LineKey(header, line, joinKeys), RowKey(f, joinKeys);
    forall j | 0 <= j < |joinKeys|
      ensures SameKey(header, line.cells, joinKeys[j], f) <==> key[j].Some? && row[j] == key[j]
    {
      KeyCell(header, line, joinKeys[j], f);
    }
    if Matches(key, line.at, joinKeys, f) {
      forall name | name in joinKeys ensures SameKey(header, line.cells, name, f) {
        var j :| 0 <= j < |joinKeys| && joinKeys[j] == name;
        assert key[j] in key;
      }
    }
    if forall name | name in joinKeys :: SameKey(header, line.cells, name, f) {
      forall j | 0 <= j < |joinKeys| ensures key[j].Some? && row[j] == key[j] {
        assert joinKeys[j] in joinKeys;
      }
    }
  }

  // ---- what a view's columns show ----------------------------------------------------------------------------

  /** The row agrees with the line and no row that does is later, event ids breaking ties. */
  ghost predicate IsShown(header: seq<string>, line: Line, view: ViewPlan, best: FeatureRow)
    requires |header| == |line.cells|
  {
    && best in view.rows.GetOr([]) && Agreeing(header, line, view, best)
    && forall f | f in view.rows.GetOr([]) && Agreeing(header, line, view, f) ::
         f.at < best.at || (f.at == best.at && (f.eventId == best.eventId || Less(f.eventId, best.eventId)))
  }

  ghost predicate Agreeing(header: seq<string>, line: Line, view: ViewPlan, f: FeatureRow)
    requires |header| == |line.cells|
  {
    f.at <= line.at && forall name | name in view.joinKeys :: SameKey(header, line.cells, name, f)
  }

  /**
   * The block of one view on one line: when no row agrees with the line the status is missing and every feature null;
   * otherwise the latest agreeing row is present with its values, unless it is older than a nonzero TTL, in which
   * case the status is expired and every feature null.
   */
  lemma BlockShows(header: seq<string>, line: Line, view: ViewPlan)
    returns (best: Option<FeatureRow>)
    requires |header| == |line.cells| && KeysIn(header, view)
    ensures var block := Block(header, line, view);
            && |block| == 1 + |view.features|
            && (best.None? ==>
                  && (forall f | f in view.rows.GetOr([]) :: !Agreeing(header, line, view, f))
                  && block[0] == Some("missing") && forall j | 1 <= j < |block| :: block[j] == None)
            && (best.Some? ==>
                  && IsShown(header, line, view, best.value)
                  && var stale := view.ttl.Some? && view.ttl.value > 0
                                  && line.at - best.value.at > Seconds(view.ttl.value);
                     && block[0] == Some(if stale then "expired" else "present")
                     && forall j | 1 <= j < |block| ::
                          block[j] == if !stale && view.features[j - 1] in best.value.values
                                      then best.value.values[view.features[j - 1]] else None)
  {
    var rows, key := view.rows.GetOr([]), LineKey(header, line, view.joinKeys);
    best := Latest(key, line.at, view.joinKeys, rows);
    LatestIsGreatest(key, line.at, view.joinKeys, rows);
    forall f | f in rows ensures Agreeing(header, line, view, f) <==> Matches(key, line.at, view.joinKeys, f) {
      MatchesExactly(header, line, view.joinKeys, f);
    }
    if best.Some? { ShownByStamp(header, line, view, best.value, key); }
  }

  lemma ShownByStamp(header: seq<string>, line: Line, view: ViewPlan, best: FeatureRow, key: seq<Cell>)
    requires |header| == |line.cells| && IsGreatest(key, line.at, view.joinKeys, view.rows.GetOr([]), Some(best))
    requires forall f | f in view.rows.GetOr([]) ::
               Agreeing(header, line, view, f) <==> Matches(key, line.at, view.joinKeys, f)
    ensures IsShown(header, line, view, best)
  {
    forall f | f in view.rows.GetOr([]) && Agreeing(header, line, view, f)
      ensures f.at < best.at || (f.at == best.at && (f.eventId == best.eventId || Less(f.eventId, best.eventId)))
    {
      assert AtMost(StampOf(f), StampOf(best));
    }
  }

  /**
   * Where a view's columns are in the answer to a query, and what they are: after the observation's own columns and
   * the blocks of the views before it, under the view's name, the block it has on that line.
   */
  lemma QueryShows(start: Table, views: seq<ViewPlan>, k: nat, i: nat)
    requires WellFormed(start) && k < |views| && i < |start.lines|
    ensures var t, before := Joined(start, views), Joined(start, views[..k]);
            var o := |before.header|;
            && |t.lines| == |start.lines| && WellFormed(before) && WellFormed(t)
            && t.lines[i].id == start.lines[i].id && t.lines[i].at == start.lines[i].at
            && before.header + Names(views[k]) <= t.header
            && before.lines[i].cells + Block(before.header, before.lines[i], views[k]) <= t.lines[i].cells
            && t.header[o] == views[k].name + "__status"
            && forall j | 0 <= j < |views[k].features| ::
                 t.header[o + 1 + j] == views[k].name + "__" + views[k].features[j]
  {
    HeaderShows(start.header, views, k);
    CellsShow(start.header, start.lines[i], views, k);
    var before, t := Joined(start, views[..k]), Joined(start, views);
    forall j | 0 <= j < |Names(views[k])| ensures t.header[|before.header| + j] == Names(views[k])[j] {
      assert (before.header + Names(views[k]))[|before.header| + j] == Names(views[k])[j];
    }
  }

  lemma {:induction false} HeaderShows(header: seq<string>, views: seq<ViewPlan>, k: nat)
    requires k < |views|
    ensures header + AllNames(views[..k]) + Names(views[k]) <= header + AllNames(views)
  {
    var init, last := views[..|views| - 1], views[|views| - 1];
    assert header + AllNames(views) == header + AllNames(init) + Names(last);
    if k < |views| - 1 {
      HeaderShows(header, init, k);
      assert init[..k] == views[..k];
    }
  }

  lemma {:induction false} CellsShow(header: seq<string>, line: Line, views: seq<ViewPlan>, k: nat)
    requires k < |views| && |header| == |line.cells|
    ensures var before := Blocked(header, line, views[..k]);
            before + Block(header + AllNames(views[..k]), line.(cells := before), views[k])
            <= Blocked(header, line, views)
  {
    if k < |views| - 1 {
      var init := views[..|views| - 1];
      CellsShow(header, line, init, k);
      assert init[..k] == views[..k];
    }
  }
}
