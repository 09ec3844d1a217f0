/**
 * The point-in-time join: each observation gets, per requested view, the latest feature row of its
 * entity at or before the observation's own time.
 */
module PointInTime {
  import opened Common
  import opened TextOrder
  import OnlineRows

  /** A table cell as text; `None` is NULL. */
  type Cell = Option<string>

  datatype Field = Field(name: string, cell: Cell)

  datatype Observation = Observation(fields: seq<Field>, at: Time)

  datatype FeatureRow = FeatureRow(keys: map<string, Cell>, at: Time, eventId: string, values: map<string, Cell>)

  /** One row of the table being built. `id` is the `_row_id` column; `cells` go with the table's header. */
  datatype Line = Line(id: nat, at: Time, cells: seq<Cell>)

  datatype Table = Table(header: seq<string>, lines: seq<Line>)

  /** What one requested view contributes. `rows` is `None` when the view has no offline table. */
  datatype ViewPlan = ViewPlan(
    name: string, features: seq<string>, joinKeys: seq<string>, ttl: Option<nat>, rows: Option<seq<FeatureRow>>)

  datatype Status = Present | Missing | Expired

  function StatusText(s: Status): string {
    match s
    case Present => "present"
    case Missing => "missing"
    case Expired => "expired"
  }

  function StampOf(f: FeatureRow): Stamp {
    Stamp(f.at, f.eventId)
  }

  /** The cell of the first column with this name. */
  function Lookup(header: seq<string>, cells: seq<Cell>, name: string): Cell
    requires |header| == |cells|
  {
    if header == [] then None
    else if header[0] == name then cells[0]
    else Lookup(header[1..], cells[1..], name)
  }

  function LineKey(header: seq<string>, line: Line, joinKeys: seq<string>): seq<Cell>
    requires |header| == |line.cells|
  {
    seq(|joinKeys|, i requires 0 <= i < |joinKeys| => Lookup(header, line.cells, joinKeys[i]))
  }

  function RowKey(f: FeatureRow, joinKeys: seq<string>): seq<Cell> {
    seq(|joinKeys|, i requires 0 <= i < |joinKeys| => if joinKeys[i] in f.keys then f.keys[joinKeys[i]] else None)
  }

  /** The join condition. SQL equality is never true of NULL. */
  predicate Matches(key: seq<Cell>, at: Time, joinKeys: seq<string>, f: FeatureRow) {
    None !in key && RowKey(f, joinKeys) == key && f.at <= at
  }

  // ---- the query ---------------------------------------------------------------------------------

  /** A row of the left join: a line with a matching feature row, or with none when nothing matches. */
  datatype Pair = Pair(line: Line, row: Option<FeatureRow>)

  ghost predicate InJoin(t: Table, joinKeys: seq<string>, rows: seq<FeatureRow>, p: Pair)
    requires WellFormed(t)
  {
    p.line in t.lines &&
      var key := LineKey(t.header, p.line, joinKeys);
      match p.row
      case None => forall f | f in rows :: !Matches(key, p.line.at, joinKeys, f)
      case Some(f) => f in rows && Matches(key, p.line.at, joinKeys, f)
  }

  /** `ORDER BY event_timestamp DESC NULLS LAST, event_id DESC NULLS LAST`. */
  predicate Outranks(a: Pair, b: Pair) {
    a.row.Some? && (b.row.None? || Before(StampOf(b.row.value), StampOf(a.row.value)))
  }

  /** A joined row that no other of its partition outranks. */
  ghost predicate IsFirst(t: Table, joinKeys: seq<string>, rows: seq<FeatureRow>, p: Pair)
    requires WellFormed(t)
  {
    && InJoin(t, joinKeys, rows, p)
    && forall other | InJoin(t, joinKeys, rows, other) && other.line.id == p.line.id :: !Outranks(other, p)
  }

  /**
   * An answer to the query: one first-ranked row per `_row_id`, in `_row_id` order. Between equal stamps
   * the query leaves the choice open, and so does this.
   */
  ghost predicate Answers(t: Table, joinKeys: seq<string>, rows: seq<FeatureRow>, out: seq<Pair>)
    requires WellFormed(t)
  {
    && (forall i | 0 <= i < |out| :: IsFirst(t, joinKeys, rows, out[i]))
    && Increasing(Ids(out))
    && (forall k | 0 <= k < |t.lines| :: t.lines[k].id in Ids(out))
  }

  function Ids(out: seq<Pair>): seq<nat> {
    seq(|out|, i requires 0 <= i < |out| => out[i].line.id)
  }

  ghost predicate Increasing(ids: seq<nat>) {
    forall j, k | 0 <= j < k < |ids| :: ids[j] < ids[k]
  }

  /** Lines are as wide as the header and numbered from 0. */
  ghost predicate WellFormed(t: Table) {
    forall i | 0 <= i < |t.lines| :: t.lines[i].id == i && |t.lines[i].cells| == |t.header|
  }

  /** The greatest matching row, if any row matches. */
  ghost predicate IsGreatest(key: seq<Cell>, at: Time, joinKeys: seq<string>, rows: seq<FeatureRow>,
                             pick: Option<FeatureRow>) {
    match pick
    case None => forall f | f in rows :: !Matches(key, at, joinKeys, f)
    case Some(best) =>
      && best in rows && Matches(key, at, joinKeys, best)
      && forall f | f in rows && Matches(key, at, joinKeys, f) :: AtMost(StampOf(f), StampOf(best))
  }

  /** Increasing numbers below n that leave none out are 0, 1, ..., n - 1. */
  lemma {:induction false} AllInOrder(ids: seq<nat>, n: nat, i: nat)
    requires Increasing(ids) && forall id | 0 <= id < n :: id in ids
    requires i < n
    ensures i < |ids| && ids[i] == i
  {
    if i > 0 { AllInOrder(ids, n, i - 1); }
    assert i in ids;
    var k :| 0 <= k < |ids| && ids[k] == i;
  }

  lemma AnswerIds(t: Table, joinKeys: seq<string>, rows: seq<FeatureRow>, out: seq<Pair>)
    requires WellFormed(t) && Answers(t, joinKeys, rows, out)
    ensures |out| == |t.lines| && forall i | 0 <= i < |out| :: out[i].line == t.lines[i]
  {
    var ids, n := Ids(out), |t.lines|;
    forall id | 0 <= id < n ensures id in ids {
      assert t.lines[id].id == id;
    }
    forall i | 0 <= i < |out| ensures ids[i] < n && out[i].line == t.lines[ids[i]] {
      LineOf(t, joinKeys, rows, out[i]);
    }
    forall i | 0 <= i < n ensures i < |ids| && ids[i] == i {
      AllInOrder(ids, n, i);
    }
    if n > 0 { AllInOrder(ids, n, n - 1); }
    if |ids| > n {
      TooMany(ids, n);
      assert false;
    }
  }

  lemma {:induction false} TooMany(ids: seq<nat>, n: nat)
    requires Increasing(ids) && (forall i | 0 <= i < n :: i < |ids| && ids[i] == i) && |ids| > n
    ensures ids[n] >= n
  {
    if n > 0 { assert ids[n - 1] < ids[n]; }
  }

  lemma LineOf(t: Table, joinKeys: seq<string>, rows: seq<FeatureRow>, p: Pair)
    requires WellFormed(t) && IsFirst(t, joinKeys, rows, p)
    ensures p.line.id < |t.lines| && p.line == t.lines[p.line.id]
  {
    var k :| 0 <= k < |t.lines| && t.lines[k] == p.line;
  }

  /**
   * Whatever answer the engine gives, it has exactly one row per observation, in order, carrying the
   * greatest feature row at or before the observation, or none when there is none.
   */
  lemma AnswerShape(t: Table, joinKeys: seq<string>, rows: seq<FeatureRow>, out: seq<Pair>)
    requires WellFormed(t) && Answers(t, joinKeys, rows, out)
    ensures |out| == |t.lines|
    ensures forall i | 0 <= i < |out| ::
              out[i].line == t.lines[i]
              && IsGreatest(LineKey(t.header, t.lines[i], joinKeys), t.lines[i].at, joinKeys, rows, out[i].row)
  {
    AnswerIds(t, joinKeys, rows, out);
    forall i | 0 <= i < |out|
      ensures IsGreatest(LineKey(t.header, t.lines[i], joinKeys), t.lines[i].at, joinKeys, rows, out[i].row)
    {
      FirstIsGreatest(t, joinKeys, rows, out[i]);
    }
  }

  /** Ranking first within a partition is carrying the greatest matching row. */
  lemma FirstIsGreatest(t: Table, joinKeys: seq<string>, rows: seq<FeatureRow>, p: Pair)
    requires WellFormed(t) && p.line in t.lines
    ensures IsFirst(t, joinKeys, rows, p) <==>
              IsGreatest(LineKey(t.header, p.line, joinKeys), p.line.at, joinKeys, rows, p.row)
  {
    var key := LineKey(t.header, p.line, joinKeys);
    if IsFirst(t, joinKeys, rows, p) && p.row.Some? {
      forall f | f in rows && Matches(key, p.line.at, joinKeys, f)
        ensures AtMost(StampOf(f), StampOf(p.row.value))
      {
        assert InJoin(t, joinKeys, rows, Pair(p.line, Some(f)));
        AtMostTotal(StampOf(f), StampOf(p.row.value));
      }
    }
    if IsGreatest(key, p.line.at, joinKeys, rows, p.row) {
      forall other | InJoin(t, joinKeys, rows, other) && other.line.id == p.line.id ensures !Outranks(other, p) {
        SamePartition(t, p.line, other.line);
        if other.row.Some? && p.row.Some? && Before(StampOf(p.row.value), StampOf(other.row.value)) {
          BeforeAsymmetric(StampOf(p.row.value), StampOf(other.row.value));
        }
      }
    }
  }

  lemma SamePartition(t: Table, a: Line, b: Line)
    requires WellFormed(t) && a in t.lines && b in t.lines && a.id == b.id
    ensures a == b
  {
    var i :| 0 <= i < |t.lines| && t.lines[i] == a;
    var j :| 0 <= j < |t.lines| && t.lines[j] == b;
  }

  /** The greatest matching row, computed. */
  function Latest(key: seq<Cell>, at: Time, joinKeys: seq<string>, rows: seq<FeatureRow>): (pick: Option<FeatureRow>)
  {
    if rows == [] then None
    else
      var before, last := Latest(key, at, joinKeys, rows[..|rows| - 1]), rows[|rows| - 1];
      if !Matches(key, at, joinKeys, last) then before
      else if before.Some? && Before(StampOf(last), StampOf(before.value)) then before
      else Some(last)
  }

  lemma {:induction false} LatestIsGreatest(key: seq<Cell>, at: Time, joinKeys: seq<string>, rows: seq<FeatureRow>)
    ensures IsGreatest(key, at, joinKeys, rows, Latest(key, at, joinKeys, rows))
  {
    if rows != [] {
      var init, last := rows[..|rows| - 1], rows[|rows| - 1];
      LatestIsGreatest(key, at, joinKeys, init);
      assert rows == init + [last];
      var before := Latest(key, at, joinKeys, init);
      if Matches(key, at, joinKeys, last) && before.Some? {
        AtMostTotal(StampOf(before.value), StampOf(last));
        forall f | f in rows && Matches(key, at, joinKeys, f)
          ensures AtMost(StampOf(f), StampOf(Latest(key, at, joinKeys, rows).value))
        {
          if f in init && Latest(key, at, joinKeys, rows) == Some(last) {
            AtMostTransitive(StampOf(f), StampOf(before.value), StampOf(last));
          }
        }
      }
    }
  }

  function Answer(t: Table, joinKeys: seq<string>, rows: seq<FeatureRow>): seq<Pair>
    requires WellFormed(t)
  {
    seq(|t.lines|, i requires 0 <= i < |t.lines| =>
      Pair(t.lines[i], Latest(LineKey(t.header, t.lines[i], joinKeys), t.lines[i].at, joinKeys, rows)))
  }

  /** The computed answer is one the query allows. */
  lemma AnswerAnswers(t: Table, joinKeys: seq<string>, rows: seq<FeatureRow>)
    requires WellFormed(t)
    ensures Answers(t, joinKeys, rows, Answer(t, joinKeys, rows))
  {
    var out := Answer(t, joinKeys, rows);
    forall i | 0 <= i < |out| ensures IsFirst(t, joinKeys, rows, out[i]) {
      LatestIsGreatest(LineKey(t.header, t.lines[i], joinKeys), t.lines[i].at, joinKeys, rows);
      FirstIsGreatest(t, joinKeys, rows, out[i]);
    }
    forall k | 0 <= k < |t.lines| ensures t.lines[k].id in Ids(out) {
      assert Ids(out)[k] == t.lines[k].id;
    }
  }

  // ---- columns -----------------------------------------------------------------------------------

  /** The boundary itself is not expired; no TTL, or a TTL of zero, never expires. */
  predicate IsExpired(ttl: Option<nat>, at: Time, f: FeatureRow) {
    ttl.Some? && ttl.value != 0 && f.at < at - Seconds(ttl.value)
  }

  function StatusFor(ttl: Option<nat>, at: Time, pick: Option<FeatureRow>): Status {
    match pick
    case None => Missing
    case Some(f) => if IsExpired(ttl, at, f) then Expired else Present
  }

  function FeatureCell(ttl: Option<nat>, at: Time, pick: Option<FeatureRow>, name: string): Cell {
    match pick
    case None => None
    case Some(f) => if !IsExpired(ttl, at, f) && name in f.values then f.values[name] else None
  }

  function Names(view: ViewPlan): seq<string> {
    [view.name + "__status"]
    + seq(|view.features|, i requires 0 <= i < |view.features| => view.name + "__" + view.features[i])
  }

  function Cells(view: ViewPlan, at: Time, pick: Option<FeatureRow>): seq<Cell> {
    [Some(StatusText(StatusFor(view.ttl, at, pick)))]
    + seq(|view.features|, i requires 0 <= i < |view.features| => FeatureCell(view.ttl, at, pick, view.features[i]))
  }

  /** `_join_view`, from the engine's answer to the query. */
  function JoinView(t: Table, view: ViewPlan, out: seq<Pair>): Table {
    Table(t.header + Names(view),
          seq(|out|, i requires 0 <= i < |out| =>
            out[i].line.(cells := out[i].line.cells + Cells(view, out[i].line.at, out[i].row))))
  }

  /** `_append_missing`. */
  function AppendMissing(t: Table, view: ViewPlan): Table {
    Table(t.header + Names(view),
          seq(|t.lines|, i requires 0 <= i < |t.lines| =>
            t.lines[i].(cells := t.lines[i].cells + [Some("missing")] + seq(|view.features|, _ => None))))
  }

  function Start(observations: seq<Observation>): Table {
    if observations == [] then Table([], [])
    else
      var header := NamesOf(observations[0].fields);
      Table(header, seq(|observations|, i requires 0 <= i < |observations| =>
        Line(i, observations[i].at, CellsFor(header, observations[i].fields))))
  }

  function NamesOf(fields: seq<Field>): seq<string> {
    seq(|fields|, i requires 0 <= i < |fields| => fields[i].name)
  }

  /** The schema is that of the first observation; a field another observation lacks is NULL there. */
  function CellsFor(header: seq<string>, fields: seq<Field>): seq<Cell> {
    seq(|header|, i requires 0 <= i < |header| =>
      Lookup(NamesOf(fields), seq(|fields|, k requires 0 <= k < |fields| => fields[k].cell), header[i]))
  }

  // ---- the loop over views -----------------------------------------------------------------------

  /** The columns one view gives one line, as the line and its header stand by the view's turn. */
  function Block(header: seq<string>, line: Line, view: ViewPlan): seq<Cell>
    requires |header| == |line.cells|
  {
    Cells(view, line.at, Latest(LineKey(header, line, view.joinKeys), line.at, view.joinKeys, view.rows.GetOr([])))
  }

  function AllNames(views: seq<ViewPlan>): seq<string> {
    if views == [] then [] else AllNames(views[..|views| - 1]) + Names(views[|views| - 1])
  }

  /** The cells of one line once every view, in turn, has added its block. */
  function Blocked(header: seq<string>, line: Line, views: seq<ViewPlan>): (cells: seq<Cell>)
    requires |header| == |line.cells|
    ensures |cells| == |header + AllNames(views)|
  {
    if views == [] then line.cells
    else
      var init, last := views[..|views| - 1], views[|views| - 1];
      var cells := Blocked(header, line, init);
      cells + Block(header + AllNames(init), line.(cells := cells), last)
  }

  /** The table in which every view, in turn, has given every line of `start` its block. */
  function Joined(start: Table, views: seq<ViewPlan>): Table
    requires WellFormed(start)
  {
    Table(start.header + AllNames(views),
          seq(|start.lines|, i requires 0 <= i < |start.lines| =>
            start.lines[i].(cells := Blocked(start.header, start.lines[i], views))))
  }

  predicate KeysIn(header: seq<string>, view: ViewPlan) {
    forall key | key in view.joinKeys :: key in header
  }

  lemma {:induction false} LookupExtends(header: seq<string>, cells: seq<Cell>, moreNames: seq<string>, more: seq<Cell>,
                                         name: string)
    requires |header| == |cells| && |moreNames| == |more| && name in header
    ensures Lookup(header + moreNames, cells + more, name) == Lookup(header, cells, name)
  {
    if header[0] != name {
      assert (header + moreNames)[1..] == header[1..] + moreNames && (cells + more)[1..] == cells[1..] + more;
      LookupExtends(header[1..], cells[1..], moreNames, more, name);
    }
  }

  /** Columns added later do not change the key a view joins on. */
  lemma KeyExtends(header: seq<string>, line: Line, moreNames: seq<string>, more: seq<Cell>, view: ViewPlan)
    requires |header| == |line.cells| && |moreNames| == |more| && KeysIn(header, view)
    ensures LineKey(header + moreNames, line.(cells := line.cells + more), view.joinKeys)
            == LineKey(header, line, view.joinKeys)
  {
    forall i | 0 <= i < |view.joinKeys|
      ensures Lookup(header + moreNames, line.cells + more, view.joinKeys[i])
              == Lookup(header, line.cells, view.joinKeys[i])
    {
      LookupExtends(header, line.cells, moreNames, more, view.joinKeys[i]);
    }
  }

  /** One turn of the loop: the view's columns, from the engine's answer. */
  function Extended(t: Table, view: ViewPlan): Table
    requires WellFormed(t)
  {
    JoinView(t, view, Answer(t, view.joinKeys, view.rows.GetOr([])))
  }

  lemma ExtendedIsWellFormed(t: Table, view: ViewPlan)
    requires WellFormed(t)
    ensures WellFormed(Extended(t, view)) && |Extended(t, view).lines| == |t.lines|
  {}

  /** Appending nulls is what joining with an empty table does. */
  lemma MissingIsEmptyJoin(t: Table, view: ViewPlan)
    requires WellFormed(t) && view.rows.GetOr([]) == []
    ensures AppendMissing(t, view) == Extended(t, view)
  {
    var missing, joined := AppendMissing(t, view), Extended(t, view);
    forall i | 0 <= i < |t.lines| ensures missing.lines[i] == joined.lines[i] {
      assert joined.lines[i].cells == t.lines[i].cells + Cells(view, t.lines[i].at, None);
      assert missing.lines[i].cells == joined.lines[i].cells;
    }
  }

  /** A turn adds the view's block to every line. */
  lemma OneMoreView(start: Table, views: seq<ViewPlan>, view: ViewPlan)
    requires WellFormed(start) && WellFormed(Joined(start, views))
    ensures Extended(Joined(start, views), view) == Joined(start, views + [view])
  {
    var all, t := views + [view], Joined(start, views);
    assert all[..|all| - 1] == views && all[|all| - 1] == view;
    var want, joined := Joined(start, all), Extended(t, view);
    assert want.header == t.header + Names(view);
    forall i | 0 <= i < |start.lines| ensures joined.lines[i] == want.lines[i] {
      assert want.lines[i].cells == t.lines[i].cells + Block(t.header, t.lines[i], view);
    }
  }

  lemma StartIsWellFormed(observations: seq<Observation>)
    ensures WellFormed(Start(observations)) && |Start(observations).lines| == |observations|
  {}

  /** The first k views find their join keys among the columns there are by their turn. */
  ghost predicate Admitted(header: seq<string>, views: seq<ViewPlan>, k: nat)
    requires k <= |views|
  {
    forall j | 0 <= j < k :: KeysIn(header + AllNames(views[..j]), views[j])
  }

  method AddView(current: Table, view: ViewPlan) returns (next: Table)
    requires WellFormed(current)
    ensures next == Extended(current, view)
  {
    if view.rows.None? || view.rows.value == [] {
      MissingIsEmptyJoin(current, view);
      next := AppendMissing(current, view);
    } else {
      AnswerAnswers(current, view.joinKeys, view.rows.value);
      next := JoinView(current, view, Answer(current, view.joinKeys, view.rows.value));
    }
  }

  /**
   * `_query_table`. It refuses exactly when a join key of some view is no column of the table so far;
   * otherwise there is one line per observation, in order: the observation's own fields, followed by one block
   * per view, computed from the columns there are by that view's turn.
   */
  method QueryTable(observations: seq<Observation>, views: seq<ViewPlan>) returns (r: Result<Table, string>)
    ensures observations == [] ==> r == Ok(Table([], []))
    ensures observations != [] ==> (r.Ok? <==> Admitted(Start(observations).header, views, |views|))
    ensures WellFormed(Start(observations)) && |Start(observations).lines| == |observations|
    ensures observations != [] && r.Ok? ==> r.value == Joined(Start(observations), views)
  {
    StartIsWellFormed(observations);
    if observations == [] {
      return Ok(Table([], []));
    }
    r := JoinAll(Start(observations), views);
  }

  /** The loop over the requested views. */
  method JoinAll(start: Table, views: seq<ViewPlan>) returns (r: Result<Table, string>)
    requires WellFormed(start)
    ensures r.Ok? <==> Admitted(start.header, views, |views|)
    ensures r.Ok? ==> r.value == Joined(start, views)
  {
    JoinedNothing(start);
    var current := start;
    for k := 0 to |views|
      invariant WellFormed(current) && current == Joined(start, views[..k])
      invariant Admitted(start.header, views, k)
    {
      var view := views[k];
      if !KeysIn(current.header, view) {
        return Err("missing observation entity keys");
      }
      OneMoreView(start, views[..k], view);
      ExtendedIsWellFormed(current, view);
      OneMoreName(views, k);
      current := AddView(current, view);
    }
    assert views[..|views|] == views;
    r := Ok(current);
  }

  lemma OneMoreName(views: seq<ViewPlan>, k: nat)
    requires k < |views|
    ensures views[..k + 1] == views[..k] + [views[k]]
    ensures AllNames(views[..k + 1]) == AllNames(views[..k]) + Names(views[k])
  {
    assert views[..k + 1][..k] == views[..k];
  }

  lemma JoinedNothing(start: Table)
    requires WellFormed(start)
    ensures Joined(start, []) == start
  {
    forall i | 0 <= i < |start.lines| ensures Joined(start, []).lines[i] == start.lines[i] {
      assert start.lines[i].cells + [] == start.lines[i].cells;
    }
  }

  // ---- what the join promises --------------------------------------------------------------------

  lemma {:induction false} BlocksGrow(header: seq<string>, line: Line, views: seq<ViewPlan>, more: seq<ViewPlan>)
    requires |header| == |line.cells|
    ensures Blocked(header, line, views) <= Blocked(header, line, views + more)
    ensures AllNames(views) <= AllNames(views + more)
  {
    if more == [] {
      assert views + more == views;
    } else {
      var init := more[..|more| - 1];
      BlocksGrow(header, line, views, init);
      assert (views + more)[..|views + more| - 1] == views + init;
    }
  }

  /** Requesting further views keeps the row count, the row order and every earlier column. */
  lemma MoreViewsKeepEarlierColumns(start: Table, views: seq<ViewPlan>, more: seq<ViewPlan>)
    requires WellFormed(start)
    ensures var a, b := Joined(start, views), Joined(start, views + more);
            |a.lines| == |b.lines| && a.header <= b.header
            && forall i | 0 <= i < |a.lines| ::
                 a.lines[i].id == b.lines[i].id && a.lines[i].at == b.lines[i].at
                 && a.lines[i].cells <= b.lines[i].cells
  {
    BlocksGrow([], Line(0, 0, []), views, more);
    forall i | 0 <= i < |start.lines|
      ensures Joined(start, views).lines[i].cells <= Joined(start, views + more).lines[i].cells
    {
      BlocksGrow(start.header, start.lines[i], views, more);
    }
  }

  /** The columns a view gives a line are those it would give alone, when it joins on entity columns. */
  lemma BlockStandsAlone(header: seq<string>, line: Line, views: seq<ViewPlan>, view: ViewPlan)
    requires |header| == |line.cells| && KeysIn(header, view)
    ensures Blocked(header, line, views + [view]) == Blocked(header, line, views) + Block(header, line, view)
  {
    var all := views + [view];
    assert all[..|all| - 1] == views && all[|all| - 1] == view;
    BlocksGrow(header, line, [], views);
    assert [] + views == views;
    var added := Blocked(header, line, views)[|header|..];
    assert Blocked(header, line, views) == line.cells + added;
    KeyExtends(header, line, AllNames(views), added, view);
  }

  /** Among the rows that match one observation, a stamp identifies a row. */
  ghost predicate StampsIdentify(key: seq<Cell>, at: Time, joinKeys: seq<string>, rows: seq<FeatureRow>) {
    forall a, b | a in rows && b in rows && Matches(key, at, joinKeys, a) && Matches(key, at, joinKeys, b) ::
      StampOf(a) == StampOf(b) ==> a == b
  }

  lemma GreatestIsUnique(key: seq<Cell>, at: Time, joinKeys: seq<string>, rows: seq<FeatureRow>,
                         x: Option<FeatureRow>, y: Option<FeatureRow>)
    requires StampsIdentify(key, at, joinKeys, rows)
    requires IsGreatest(key, at, joinKeys, rows, x) && IsGreatest(key, at, joinKeys, rows, y)
    ensures x == y
  {
    if x.Some? && y.Some? {
      AtMostAntisymmetric(StampOf(x.value), StampOf(y.value));
    }
  }

  /** Where stamps identify rows the engine has no choice: every answer it may give is the same one. */
  lemma AnswerIsUnique(t: Table, joinKeys: seq<string>, rows: seq<FeatureRow>, out: seq<Pair>)
    requires WellFormed(t) && Answers(t, joinKeys, rows, out)
    requires forall i | 0 <= i < |t.lines| ::
               StampsIdentify(LineKey(t.header, t.lines[i], joinKeys), t.lines[i].at, joinKeys, rows)
    ensures out == Answer(t, joinKeys, rows)
  {
    AnswerShape(t, joinKeys, rows, out);
    forall i | 0 <= i < |out| ensures out[i] == Answer(t, joinKeys, rows)[i] {
      var key := LineKey(t.header, t.lines[i], joinKeys);
      LatestIsGreatest(key, t.lines[i].at, joinKeys, rows);
      GreatestIsUnique(key, t.lines[i].at, joinKeys, rows, out[i].row, Latest(key, t.lines[i].at, joinKeys, rows));
    }
  }

  /**
   * No leakage: two tables that agree on the rows at or before the observation give it the same row,
   * whatever they hold after it and in whatever order.
   */
  lemma FutureRowsDoNotMatter(key: seq<Cell>, at: Time, joinKeys: seq<string>, a: seq<FeatureRow>, b: seq<FeatureRow>)
    requires forall f: FeatureRow | f.at <= at :: f in a <==> f in b
    requires StampsIdentify(key, at, joinKeys, a)
    ensures Latest(key, at, joinKeys, a) == Latest(key, at, joinKeys, b)
  {
    LatestIsGreatest(key, at, joinKeys, a);
    LatestIsGreatest(key, at, joinKeys, b);
    GreatestIsUnique(key, at, joinKeys, a, Latest(key, at, joinKeys, a), Latest(key, at, joinKeys, b));
  }

  /**
   * The status of a line, told by the rows alone: missing when no row matches, expired exactly when every
   * matching row is more than a nonzero TTL old, and so present at the boundary itself.
   */
  lemma StatusByRows(view: ViewPlan, key: seq<Cell>, at: Time, rows: seq<FeatureRow>)
    ensures var status := StatusFor(view.ttl, at, Latest(key, at, view.joinKeys, rows));
            && (status == Missing <==> forall f | f in rows :: !Matches(key, at, view.joinKeys, f))
            && (status == Present <==> exists f :: f in rows && Matches(key, at, view.joinKeys, f)
                                         && (view.ttl.Some? && view.ttl.value != 0 ==>
                                               at - Seconds(view.ttl.value) <= f.at))
  {
    LatestIsGreatest(key, at, view.joinKeys, rows);
    var pick := Latest(key, at, view.joinKeys, rows);
    if pick.Some? {
      assert pick.value in rows && Matches(key, at, view.joinKeys, pick.value);
      forall f | f in rows && Matches(key, at, view.joinKeys, f) ensures f.at <= pick.value.at {}
    }
  }

  // ---- training agrees with serving ----------------------------------------------------------------

  function JsonText(cell: Cell): string {
    cell.GetOr("null")
  }

  /** The event a feature row becomes online: `code` stands for the canonical entity key. */
  function OnlineRow(f: FeatureRow, joinKeys: seq<string>, code: seq<Cell> -> string): OnlineRows.Row {
    OnlineRows.Row(code(RowKey(f, joinKeys)), f.at, f.eventId, map name | name in f.values :: JsonText(f.values[name]))
  }

  function OnlineAll(rows: seq<FeatureRow>, joinKeys: seq<string>, code: seq<Cell> -> string): seq<OnlineRows.Row> {
    seq(|rows|, i requires 0 <= i < |rows| => OnlineRow(rows[i], joinKeys, code))
  }

  ghost predicate Injective(code: seq<Cell> -> string) {
    forall a, b :: code(a) == code(b) ==> a == b
  }

  /** The written rows hold every row of the entity up to that time and no later row of it. */
  ghost predicate UpTo(key: seq<Cell>, at: Time, joinKeys: seq<string>, rows: seq<FeatureRow>,
                       written: seq<FeatureRow>) {
    && (forall f | f in written && RowKey(f, joinKeys) == key :: f in rows && f.at <= at)
    && (forall f | f in rows && RowKey(f, joinKeys) == key && f.at <= at :: f in written)
  }

  /** The online entry of the entity is the row the join picks. */
  ghost predicate Agrees(view: ViewRef, key: seq<Cell>, at: Time, joinKeys: seq<string>, code: seq<Cell> -> string,
                         rows: seq<FeatureRow>, online: map<OnlineRows.Slot, OnlineRows.Row>)
  {
    var slot := OnlineRows.Slot(view, code(key));
    match Latest(key, at, joinKeys, rows)
    case None => slot !in online
    case Some(f) => slot in online && online[slot] == OnlineRow(f, joinKeys, code)
  }

  /**
   * Train/serve agreement: upsert the rows of an entity up to some time, in any order, any number of times,
   * mixed with any rows of other entities. The online entry is then the row the join picks at that time,
   * exactly if the key holds no null or the entity has no row by then: a null key never joins, and is still
   * found online.
   */
  lemma TrainServeAgreement(view: ViewRef, key: seq<Cell>, at: Time, joinKeys: seq<string>, code: seq<Cell> -> string,
                            rows: seq<FeatureRow>, written: seq<FeatureRow>)
    requires Injective(code) && UpTo(key, at, joinKeys, rows, written)
    requires OnlineRows.StampsIdentify(map[], view, OnlineAll(written, joinKeys, code))
    ensures Agrees(view, key, at, joinKeys, code, rows,
                   OnlineRows.UpsertAll(map[], view, OnlineAll(written, joinKeys, code)))
            <==> None !in key || forall f | f in rows && RowKey(f, joinKeys) == key :: f.at > at
  {
    var all := OnlineAll(written, joinKeys, code);
    var online := OnlineRows.UpsertAll(map[], view, all);
    var slot := OnlineRows.Slot(view, code(key));
    OnlineRows.UpsertAllKeepsGreatest(map[], view, all, slot);
    LatestIsGreatest(key, at, joinKeys, rows);
    if slot in online {
      var f := WrittenAs(view, key, at, joinKeys, code, rows, written, online[slot]);
    }
    if f :| f in rows && RowKey(f, joinKeys) == key && f.at <= at {
      var k :| 0 <= k < |written| && written[k] == f;
      assert OnlineRows.Competes(map[], view, all, slot, all[k]);
    }
    match Latest(key, at, joinKeys, rows)
    case None =>
    case Some(best) =>
      var k :| 0 <= k < |written| && written[k] == best;
      var mine := all[k];
      assert OnlineRows.Competes(map[], view, all, slot, mine);
      var f := WrittenAs(view, key, at, joinKeys, code, rows, written, online[slot]);
      AtMostAntisymmetric(OnlineRows.StampOf(mine), OnlineRows.StampOf(online[slot]));
  }

  /** A written row that competes for the entity's slot is one of the rows the join considers. */
  lemma WrittenAs(view: ViewRef, key: seq<Cell>, at: Time, joinKeys: seq<string>, code: seq<Cell> -> string,
                  rows: seq<FeatureRow>, written: seq<FeatureRow>, row: OnlineRows.Row) returns (f: FeatureRow)
    requires Injective(code) && UpTo(key, at, joinKeys, rows, written)
    requires OnlineRows.Competes(map[], view, OnlineAll(written, joinKeys, code), OnlineRows.Slot(view, code(key)), row)
    ensures f in rows && RowKey(f, joinKeys) == key && f.at <= at && row == OnlineRow(f, joinKeys, code)
  {
    var all := OnlineAll(written, joinKeys, code);
    var k :| 0 <= k < |all| && all[k] == row;
    f := written[k];
  }
}
