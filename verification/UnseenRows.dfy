/** The duplicate filter in front of an offline append. */
module UnseenRows {
  import opened Common

  /** A table row; equal contents are those with equal canonical text. */
  datatype Row<C> = Row(eventId: string, content: C)

  /** A loaded table, with or without an `event_id` column. */
  datatype Table<C> = Table(hasEventId: bool, rows: seq<Row<C>>)

  datatype Refusal = StagingLacksId | TargetLacksId | TargetConflict | StagingConflict | CrossConflict

  /** One event id carries two different rows. */
  ghost predicate Conflicting<C>(rows: seq<Row<C>>) {
    exists i, j :: 0 <= i < |rows| && 0 <= j < |rows| && rows[i].eventId == rows[j].eventId && rows[i] != rows[j]
  }

  ghost predicate HasId<C>(rows: seq<Row<C>>, id: string) {
    exists i :: 0 <= i < |rows| && rows[i].eventId == id
  }

  /** The staging rows, in order, that are the first with their id and whose id the target does not hold. */
  ghost function FirstUnseen<C>(existing: seq<Row<C>>, staging: seq<Row<C>>): (unseen: seq<Row<C>>)
  {
    if staging == [] then []
    else
      var init, last := staging[..|staging| - 1], staging[|staging| - 1];
      if HasId(existing, last.eventId) || HasId(init, last.eventId) then FirstUnseen(existing, init)
      else FirstUnseen(existing, init) + [last]
  }

  lemma FirstUnseenStep<C>(existing: seq<Row<C>>, init: seq<Row<C>>, row: Row<C>)
    ensures FirstUnseen(existing, init + [row]) ==
              if HasId(existing, row.eventId) || HasId(init, row.eventId) then FirstUnseen(existing, init)
              else FirstUnseen(existing, init) + [row]
  {
    var all := init + [row];
    assert all[..|all| - 1] == init && all[|all| - 1] == row;
  }

  /** A dictionary built by `setdefault` over the rows: every id with its one content. */
  ghost predicate Indexes<C>(byId: map<string, C>, rows: seq<Row<C>>) {
    && (forall i | 0 <= i < |rows| :: rows[i].eventId in byId && byId[rows[i].eventId] == rows[i].content)
    && (forall id | id in byId :: HasId(rows, id))
  }

  lemma IndexExtends<C>(byId: map<string, C>, rows: seq<Row<C>>, row: Row<C>)
    requires Indexes(byId, rows) && (row.eventId in byId ==> byId[row.eventId] == row.content)
    ensures Indexes(byId[row.eventId := row.content], rows + [row])
  {
    var all := rows + [row];
    forall id | id in byId[row.eventId := row.content] ensures HasId(all, id) {
      if id == row.eventId {
        assert all[|rows|].eventId == id;
      } else {
        var i :| 0 <= i < |rows| && rows[i].eventId == id;
        assert all[i].eventId == id;
      }
    }
  }

  lemma IndexedMeansConsistent<C>(byId: map<string, C>, rows: seq<Row<C>>)
    requires Indexes(byId, rows)
    ensures !Conflicting(rows)
  {
    forall i, j | 0 <= i < |rows| && 0 <= j < |rows| && rows[i].eventId == rows[j].eventId ensures rows[i] == rows[j] {
      assert rows[i].eventId in byId;
    }
  }

  lemma ConflictIn<C>(rows: seq<Row<C>>, i: nat, j: nat)
    requires i < |rows| && j < |rows| && rows[i].eventId == rows[j].eventId && rows[i] != rows[j]
    ensures Conflicting(rows)
  {}

  /** Appending to either side of a list keeps its conflicts. */
  lemma ConflictSpreads<C>(prefix: seq<Row<C>>, rows: seq<Row<C>>, suffix: seq<Row<C>>)
    requires Conflicting(rows)
    ensures Conflicting(prefix + rows + suffix)
  {
    var i, j :| 0 <= i < |rows| && 0 <= j < |rows| && rows[i].eventId == rows[j].eventId && rows[i] != rows[j];
    var all := prefix + rows + suffix;
    assert all[|prefix| + i] == rows[i] && all[|prefix| + j] == rows[j];
  }

  /** The first pass: the target indexed by id, or the id it holds two rows for. */
  method IndexTarget<C(==)>(rows: seq<Row<C>>) returns (byId: Option<map<string, C>>)
    ensures byId.None? <==> Conflicting(rows)
    ensures byId.Some? ==> Indexes(byId.value, rows)
  {
    var index: map<string, C> := map[];
    for k := 0 to |rows|
      invariant Indexes(index, rows[..k])
    {
      var row := rows[k];
      if row.eventId in index && index[row.eventId] != row.content {
        ghost var i :| 0 <= i < |rows[..k]| && rows[..k][i].eventId == row.eventId;
        ConflictIn(rows, i, k);
        return None;
      }
      IndexExtends(index, rows[..k], row);
      assert rows[..k + 1] == rows[..k] + [row];
      index := index[row.eventId := row.content];
    }
    assert rows[..|rows|] == rows;
    IndexedMeansConsistent(index, rows);
    byId := Some(index);
  }

  /**
   * `_unseen_rows`. It refuses tables without ids, and otherwise exactly when one event id carries two
   * different rows in the target, in the staging table or across them; if it does not refuse, it returns
   * the first staging row of every id the target lacks, in staging order.
   */
  method Unseen<C(==)>(staging: Table<C>, target: Option<Table<C>>) returns (r: Result<seq<Row<C>>, Refusal>)
    ensures !staging.hasEventId <==> r == Err(StagingLacksId)
    ensures staging.hasEventId && target.Some? ==> (!target.value.hasEventId <==> r == Err(TargetLacksId))
    ensures var existing := if target.Some? then target.value.rows else [];
            staging.hasEventId && (target.Some? ==> target.value.hasEventId) ==>
              && (r.Err? <==> Conflicting(existing + staging.rows))
              && (r == Err(TargetConflict) <==> Conflicting(existing))
              && (r.Ok? ==> r.value == FirstUnseen(existing, staging.rows))
  {
    if !staging.hasEventId {
      return Err(StagingLacksId);
    }
    var existingById: map<string, C> := map[];
    var existing: seq<Row<C>> := [];
    if target.Some? {
      if !target.value.hasEventId {
        return Err(TargetLacksId);
      }
      existing := target.value.rows;
      var index := IndexTarget(existing);
      if index.None? {
        ConflictSpreads([], existing, staging.rows);
        assert [] + existing + staging.rows == existing + staging.rows;
        return Err(TargetConflict);
      }
      existingById := index.value;
    }
    IndexedMeansConsistent(existingById, existing);
    r := UnseenAgainst(existing, existingById, staging.rows);
  }

  /** The state of the second pass after the rows `init`. */
  ghost predicate Pass<C>(existing: seq<Row<C>>, existingById: map<string, C>, init: seq<Row<C>>,
                          stagedById: map<string, C>, stagedUnseen: set<string>, unseen: seq<Row<C>>)
  {
    Indexed(existing, existingById, init, stagedById, stagedUnseen) && unseen == FirstUnseen(existing, init)
  }

  ghost predicate Indexed<C>(existing: seq<Row<C>>, existingById: map<string, C>, init: seq<Row<C>>,
                             stagedById: map<string, C>, stagedUnseen: set<string>)
  {
    && Indexes(existingById, existing)
    && Indexes(stagedById, init)
    && (forall id | id in stagedById && id in existingById :: stagedById[id] == existingById[id])
    && (forall id :: id in stagedUnseen <==> id in stagedById && id !in existingById)
  }

  lemma PassUnseen<C>(existing: seq<Row<C>>, existingById: map<string, C>, init: seq<Row<C>>,
                      stagedById: map<string, C>, stagedUnseen: set<string>, unseen: seq<Row<C>>, row: Row<C>)
    requires Pass(existing, existingById, init, stagedById, stagedUnseen, unseen)
    ensures FirstUnseen(existing, init + [row]) ==
              if row.eventId !in stagedUnseen && row.eventId !in existingById then unseen + [row] else unseen
  {
    FirstUnseenStep(existing, init, row);
    assert row.eventId in existingById <==> HasId(existing, row.eventId);
    assert row.eventId in stagedById <==> HasId(init, row.eventId);
  }

  lemma PassStep<C>(existing: seq<Row<C>>, existingById: map<string, C>, init: seq<Row<C>>,
                    stagedById: map<string, C>, stagedUnseen: set<string>, row: Row<C>, stagedUnseen': set<string>)
    requires Indexed(existing, existingById, init, stagedById, stagedUnseen)
    requires row.eventId in stagedById ==> stagedById[row.eventId] == row.content
    requires row.eventId in existingById ==> existingById[row.eventId] == row.content
    requires stagedUnseen' == if row.eventId in existingById then stagedUnseen else stagedUnseen + {row.eventId}
    ensures Indexed(existing, existingById, init + [row], stagedById[row.eventId := row.content], stagedUnseen')
  {
    IndexExtends(stagedById, init, row);
  }

  /** The second pass, over the staging rows. */
  method UnseenAgainst<C(==)>(ghost existing: seq<Row<C>>, existingById: map<string, C>, staging: seq<Row<C>>)
    returns (r: Result<seq<Row<C>>, Refusal>)
    requires Indexes(existingById, existing)
    ensures r.Err? <==> Conflicting(existing + staging)
    ensures r.Err? ==> r.error == StagingConflict || r.error == CrossConflict
    ensures r.Ok? ==> r.value == FirstUnseen(existing, staging)
  {
    var stagedById: map<string, C> := map[];
    var stagedUnseen: set<string> := {};
    var unseen: seq<Row<C>> := [];
    for k := 0 to |staging|
      invariant Pass(existing, existingById, staging[..k], stagedById, stagedUnseen, unseen)
    {
      var row := staging[k];
      ghost var init := staging[..k];
      assert staging[..k + 1] == init + [row];
      if row.eventId in stagedById && stagedById[row.eventId] != row.content {
        StagedConflict(existing, staging, stagedById, k);
        return Err(StagingConflict);
      }
      if row.eventId in existingById && existingById[row.eventId] != row.content {
        if row.eventId !in stagedUnseen {
          ExistingConflict(existing, existingById, staging, k);
          return Err(CrossConflict);
        }
      }
      PassUnseen(existing, existingById, init, stagedById, stagedUnseen, unseen, row);
      ghost var stagedBefore := stagedUnseen;
      if row.eventId !in stagedUnseen && row.eventId !in existingById {
        unseen := unseen + [row];
        stagedUnseen := stagedUnseen + {row.eventId};
      }
      PassStep(existing, existingById, init, stagedById, stagedBefore, row, stagedUnseen);
      stagedById := stagedById[row.eventId := row.content];
    }
    assert staging[..|staging|] == staging;
    AgreeingIndexes(existingById, existing, stagedById, staging);
    r := Ok(unseen);
  }

  lemma StagedConflict<C>(existing: seq<Row<C>>, staging: seq<Row<C>>, byId: map<string, C>, k: nat)
    requires k < |staging| && Indexes(byId, staging[..k])
    requires staging[k].eventId in byId && byId[staging[k].eventId] != staging[k].content
    ensures Conflicting(existing + staging)
  {
    var all := existing + staging;
    var i :| 0 <= i < k && staging[..k][i].eventId == staging[k].eventId;
    assert all[|existing| + i] == staging[i] && all[|existing| + k] == staging[k];
    ConflictIn(all, |existing| + i, |existing| + k);
  }

  lemma ExistingConflict<C>(existing: seq<Row<C>>, byId: map<string, C>, staging: seq<Row<C>>, k: nat)
    requires k < |staging| && Indexes(byId, existing)
    requires staging[k].eventId in byId && byId[staging[k].eventId] != staging[k].content
    ensures Conflicting(existing + staging)
  {
    var all := existing + staging;
    var i :| 0 <= i < |existing| && existing[i].eventId == staging[k].eventId;
    assert all[i] == existing[i] && all[|existing| + k] == staging[k];
    ConflictIn(all, i, |existing| + k);
  }

  ghost predicate Holds<C>(byId: map<string, C>, row: Row<C>) {
    row.eventId in byId && byId[row.eventId] == row.content
  }

  lemma AgreeingIndexes<C>(a: map<string, C>, existing: seq<Row<C>>, b: map<string, C>, staging: seq<Row<C>>)
    requires Indexes(a, existing) && Indexes(b, staging)
    requires forall id | id in a && id in b :: a[id] == b[id]
    ensures !Conflicting(existing + staging)
  {
    var all := existing + staging;
    forall i, j | 0 <= i < |all| && 0 <= j < |all| && all[i].eventId == all[j].eventId ensures all[i] == all[j] {
      assert forall k | 0 <= k < |all| :: if k < |existing| then Holds(a, all[k]) else Holds(b, all[k]);
    }
  }

  // ---- what the filter is for ------------------------------------------------------------------------

  /** Membership: a filtered row is a staging row whose id the target lacks, and no id is missed. */
  lemma {:induction false} FirstUnseenIds<C>(existing: seq<Row<C>>, staging: seq<Row<C>>)
    ensures forall row | row in FirstUnseen(existing, staging) :: row in staging && !HasId(existing, row.eventId)
    ensures forall id :: HasId(FirstUnseen(existing, staging), id) <==> HasId(staging, id) && !HasId(existing, id)
    ensures forall i, j | 0 <= i < j < |FirstUnseen(existing, staging)| ::
              FirstUnseen(existing, staging)[i].eventId != FirstUnseen(existing, staging)[j].eventId
  {
    if staging != [] {
      var init, last := staging[..|staging| - 1], staging[|staging| - 1];
      FirstUnseenIds(existing, init);
      var unseen, before := FirstUnseen(existing, staging), FirstUnseen(existing, init);
      forall id ensures HasId(staging, id) <==> HasId(init, id) || id == last.eventId {
        if HasId(init, id) {
          var i :| 0 <= i < |init| && init[i].eventId == id;
          assert staging[i].eventId == id;
        }
        assert staging[|staging| - 1].eventId == last.eventId;
      }
      if unseen != before {
        assert unseen == before + [last];
        forall id ensures HasId(unseen, id) <==> HasId(before, id) || id == last.eventId {
          if HasId(before, id) {
            var i :| 0 <= i < |before| && before[i].eventId == id;
            assert unseen[i].eventId == id;
          }
          assert unseen[|before|].eventId == last.eventId;
        }
        forall i, j | 0 <= i < j < |unseen| ensures unseen[i].eventId != unseen[j].eventId {
          if j == |before| { assert HasId(before, unseen[i].eventId) by { assert before[i] == unseen[i]; } }
        }
      }
    }
  }

  lemma {:induction false} NothingUnseen<C>(existing: seq<Row<C>>, staging: seq<Row<C>>)
    requires forall i | 0 <= i < |staging| :: HasId(existing, staging[i].eventId)
    ensures FirstUnseen(existing, staging) == []
  {
    if staging != [] {
      NothingUnseen(existing, staging[..|staging| - 1]);
    }
  }

  /**
   * Idempotence: after the filtered rows have been appended, the same staging table is accepted again and
   * contributes nothing, so replaying an append is harmless.
   */
  lemma AppendTwice<C>(existing: seq<Row<C>>, staging: seq<Row<C>>)
    requires !Conflicting(existing + staging)
    ensures var target := existing + FirstUnseen(existing, staging);
            !Conflicting(target + staging) && FirstUnseen(target, staging) == []
  {
    var unseen := FirstUnseen(existing, staging);
    var target := existing + unseen;
    var old' := existing + staging;
    FirstUnseenIds(existing, staging);
    var all := target + staging;
    forall i | 0 <= i < |all| ensures exists k :: 0 <= k < |old'| && old'[k] == all[i] {
      if i < |existing| {
        assert old'[i] == all[i];
      } else if i < |target| {
        assert all[i] == unseen[i - |existing|] && unseen[i - |existing|] in staging;
        var k :| 0 <= k < |staging| && staging[k] == all[i];
        assert old'[|existing| + k] == all[i];
      } else {
        assert old'[|existing| + i - |target|] == all[i];
      }
    }
    forall i, j | 0 <= i < |all| && 0 <= j < |all| && all[i].eventId == all[j].eventId ensures all[i] == all[j] {
      var k :| 0 <= k < |old'| && old'[k] == all[i];
      var l :| 0 <= l < |old'| && old'[l] == all[j];
    }
    forall i | 0 <= i < |staging| ensures HasId(target, staging[i].eventId) {
      var id := staging[i].eventId;
      if HasId(existing, id) {
        var k :| 0 <= k < |existing| && existing[k].eventId == id;
        assert target[k].eventId == id;
      } else {
        assert HasId(staging, id);
        var k :| 0 <= k < |unseen| && unseen[k].eventId == id;
        assert target[|existing| + k].eventId == id;
      }
    }
    NothingUnseen(target, staging);
  }
}
