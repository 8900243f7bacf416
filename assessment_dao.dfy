/** The `assessments` table behind the Room DAO: rows keyed by their primary key `id`. */
module Storage {
  import opened Wrappers

  /** `AssessmentEntity`; the two `Long` fields are plain integers, only compared. */
  datatype AssessmentEntity = AssessmentEntity(
    id: string,
    timestamp: int,
    imagePath: string,
    hazardsJson: string,
    overallRiskLevel: string,
    analysisTimeMs: int)

  /** Every row is stored under its own primary key. */
  predicate KeyedById(rows: map<string, AssessmentEntity>) {
    forall k :: k in rows ==> rows[k].id == k
  }

  /** Newest first: timestamps never increase along the list. */
  predicate NewestFirst(list: seq<AssessmentEntity>) {
    forall i, j :: 0 <= i < j < |list| ==> list[i].timestamp >= list[j].timestamp
  }

  /** How many rows of a newest-first list are strictly newer than `e`. */
  function Position(list: seq<AssessmentEntity>, e: AssessmentEntity): (p: nat)
    ensures p <= |list|
    ensures forall i :: 0 <= i < p ==> list[i].timestamp > e.timestamp
    ensures NewestFirst(list) ==> forall i :: p <= i < |list| ==> list[i].timestamp <= e.timestamp
  {
    if list == [] || list[0].timestamp <= e.timestamp then 0
    else 1 + Position(list[1..], e)
  }

  /** Places `e` after the rows newer than it and before the others: the list stays
      newest first and is the old list with `e` put in at one position. */
  function InsertByTimestamp(list: seq<AssessmentEntity>, e: AssessmentEntity): (r: seq<AssessmentEntity>)
    requires NewestFirst(list)
    ensures NewestFirst(r)
    ensures exists p :: 0 <= p <= |list| && r == list[..p] + [e] + list[p..]
  {
    var p := Position(list, e);
    var r := list[..p] + [e] + list[p..];
    assert forall i :: 0 <= i < |r| ==> r[i] == if i < p then list[i] else if i == p then e else list[i - 1];
    r
  }

  class AssessmentDao {
    /** The table, by primary key. */
    var rows: map<string, AssessmentEntity>

    ghost predicate Valid()
      reads this
    {
      KeyedById(rows)
    }

    /** A new, empty table. */
    constructor()
      ensures Valid() && rows == map[]
    {
      rows := map[];
    }

    /** `SELECT * FROM assessments WHERE id = :id`: the row, or null. */
    function GetAssessmentById(id: string): (r: Option<AssessmentEntity>)
      reads this
      requires Valid()
      ensures r.Some? <==> id in rows
      ensures r.Some? ==> r.value == rows[id] && r.value.id == id
    {
      if id in rows then Some(rows[id]) else None
    }

    /** `@Insert(onConflict = REPLACE)`: the row is stored under its id, replacing any
        row with that id; no other row changes. */
    method InsertAssessment(e: AssessmentEntity)
      requires Valid()
      modifies this
      ensures Valid()
      ensures rows == old(rows)[e.id := e]
      ensures GetAssessmentById(e.id) == Some(e)
      ensures e.id in old(rows) ==> |rows| == |old(rows)|
      ensures e.id !in old(rows) ==> |rows| == |old(rows)| + 1
    {
      rows := rows[e.id := e];
      if e.id in old(rows) {
        assert rows.Keys == old(rows).Keys;
      } else {
        assert rows.Keys == old(rows).Keys + {e.id};
      }
    }

    /** `@Delete`: removes the row whose primary key is `e.id`, whatever its other
        fields; nothing happens when there is none. */
    method DeleteAssessment(e: AssessmentEntity)
      requires Valid()
      modifies this
      ensures Valid()
      ensures rows == old(rows) - {e.id}
      ensures GetAssessmentById(e.id) == None
      ensures e.id !in old(rows) ==> rows == old(rows)
    {
      rows := rows - {e.id};
    }

    /** `DELETE FROM assessments`. */
    method DeleteAllAssessments()
      requires Valid()
      modifies this
      ensures Valid() && rows == map[]
    {
      rows := map[];
    }

    /** `SELECT * FROM assessments ORDER BY timestamp DESC`: every row exactly once,
        newest first. Rows with equal timestamps may come in any order. */
    method GetAllAssessments() returns (list: seq<AssessmentEntity>)
      requires Valid()
      ensures NewestFirst(list)
      ensures |list| == |rows|
      ensures forall i :: 0 <= i < |list| ==> list[i].id in rows && rows[list[i].id] == list[i]
      ensures forall k :: k in rows ==> rows[k] in list
      ensures forall i, j :: 0 <= i < j < |list| ==> list[i].id != list[j].id
    {
      var remaining := rows.Keys;
      list := [];
      while remaining != {}
        invariant remaining <= rows.Keys
        invariant NewestFirst(list)
        invariant |list| + |remaining| == |rows|
        invariant forall i :: 0 <= i < |list| ==>
          list[i].id in rows && rows[list[i].id] == list[i] && list[i].id !in remaining
        invariant forall k :: k in rows && k !in remaining ==> rows[k] in list
        invariant forall i, j :: 0 <= i < j < |list| ==> list[i].id != list[j].id
        decreases |remaining|
      {
        var k :| k in remaining;
        var next := InsertByTimestamp(list, rows[k]);
        InsertedRows(list, rows[k], next);
        assert forall i :: 0 <= i < |list| ==> list[i].id != k;
        list := next;
        remaining := remaining - {k};
      }
    }
  }

  /** Putting in a row whose id is not listed yet keeps the ids distinct, and keeps
      exactly the old rows and the new one. */
  lemma InsertedRows(list: seq<AssessmentEntity>, e: AssessmentEntity, r: seq<AssessmentEntity>)
    requires exists p :: 0 <= p <= |list| && r == list[..p] + [e] + list[p..]
    requires forall i, j :: 0 <= i < j < |list| ==> list[i].id != list[j].id
    requires forall i :: 0 <= i < |list| ==> list[i].id != e.id
    ensures |r| == |list| + 1
    ensures forall i :: 0 <= i < |r| ==> r[i] == e || r[i] in list
    ensures e in r && forall x :: x in list ==> x in r
    ensures forall i, j :: 0 <= i < j < |r| ==> r[i].id != r[j].id
  {
    var p :| 0 <= p <= |list| && r == list[..p] + [e] + list[p..];
    forall i | 0 <= i < |r|
      ensures r[i] == Source(list, e, p, i)
    {
      if i < p { assert r[i] == list[..p][i]; }
      else if i > p { assert r[i] == list[p..][i - p - 1]; }
    }
    forall x | x in list
      ensures x in r
    {
      var i :| 0 <= i < |list| && list[i] == x;
      if i < p { assert r[i] == x; } else { assert r[i + 1] == x; }
    }
    assert r[p] == e;
  }

  /** Where position `i` of the list with `e` put in at `p` comes from. */
  function Source(list: seq<AssessmentEntity>, e: AssessmentEntity, p: int, i: int): AssessmentEntity
    requires 0 <= p <= |list| && 0 <= i <= |list|
  {
    if i < p then list[i] else if i == p then e else list[i - 1]
  }
}
