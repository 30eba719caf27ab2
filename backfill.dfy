/**
 * The student-id backfill: every student document without a `student_id`
 * receives one.  Two versions exist: the migration script draws each id from
 * the "student_id" counter (migrate_add_student_id_simple.py), while the
 * `main` in app.py numbers them upwards from one past the highest id present.
 */
module Backfill {
  import opened Wrappers
  import opened Counters

  /** A student document: its `_id` and its `student_id`, if it has one. */
  datatype Student = Student(oid: int, studentId: Option<int>)

  /** The name of the counter the migration draws from. */
  const StudentCounter := "student_id"

  /** How many documents lack a `student_id`. */
  function CountMissing(docs: seq<Student>): (k: nat)
    ensures k <= |docs|
  {
    if docs == [] then 0
    else
      var n := |docs| - 1;
      CountMissing(docs[..n]) + (if docs[n].studentId.None? then 1 else 0)
  }

  /** The count is zero exactly when every student has a `student_id`. */
  lemma {:induction false} NoneMissing(docs: seq<Student>)
    ensures CountMissing(docs) == 0 <==> forall j :: 0 <= j < |docs| ==> docs[j].studentId.Some?
  {
    if docs != [] {
      var n := |docs| - 1;
      NoneMissing(docs[..n]);
      assert forall j :: 0 <= j < n ==> docs[..n][j] == docs[j];
    }
  }

  /**
   * The documents after a backfill that hands out c+1, c+2, ... in
   * document order: the j-th document, when it lacks an id, gets one more
   * than `c` plus the number of earlier documents that lacked one.
   */
  function Backfilled(docs: seq<Student>, c: int): (r: seq<Student>)
    ensures |r| == |docs|
  {
    if docs == [] then []
    else
      var n := |docs| - 1;
      var d := docs[n];
      Backfilled(docs[..n], c)
        + [if d.studentId.None? then d.(studentId := Some(c + CountMissing(docs[..n]) + 1)) else d]
  }

  /** The students collection, updated document by document. */
  class StudentCollection {
    var docs: seq<Student>

    constructor (docs: seq<Student>)
      ensures this.docs == docs
    {
      this.docs := docs;
    }
  }

  /** The first `i` documents of `cur` are backfilled and the rest are as they were. */
  predicate DoneUpTo(cur: seq<Student>, docs: seq<Student>, c: int, i: int) {
    && |cur| == |docs| && 0 <= i <= |docs|
    && (forall j :: 0 <= j < i ==> cur[j] == Backfilled(docs, c)[j])
    && (forall j :: i <= j < |docs| ==> cur[j] == docs[j])
  }

  /** Handling the `i`-th document extends the backfilled part by one. */
  lemma DoneStep(cur: seq<Student>, docs: seq<Student>, c: int, i: int)
    requires DoneUpTo(cur, docs, c, i) && i < |docs|
    ensures cur[i] == docs[i]
    ensures CountMissing(docs[..i + 1]) == CountMissing(docs[..i]) + if docs[i].studentId.None? then 1 else 0
    ensures docs[i].studentId.Some? ==> DoneUpTo(cur, docs, c, i + 1)
    ensures docs[i].studentId.None? ==>
      DoneUpTo(cur[i := docs[i].(studentId := Some(c + CountMissing(docs[..i]) + 1))], docs, c, i + 1)
  {
    BackfilledAt(docs, c, i);
    assert docs[..i + 1][..i] == docs[..i];
  }

  lemma DoneAll(cur: seq<Student>, docs: seq<Student>, c: int)
    requires DoneUpTo(cur, docs, c, |docs|)
    ensures cur == Backfilled(docs, c)
  {
  }

  /**
   * The migration's `main`: each document lacking a `student_id` gets the
   * next value of the "student_id" counter; the result is how many ids were handed out.
   */
  method BackfillStudentIds(students: StudentCollection, counters: CounterStore) returns (total: nat)
    modifies students, counters
    ensures students.docs == Backfilled(old(students.docs), Current(old(counters.seqs), StudentCounter))
    ensures total == CountMissing(old(students.docs))
    ensures counters.seqs == Draws(old(counters.seqs), StudentCounter, total).0
  {
    ghost var docs0 := students.docs;
    ghost var seqs0 := counters.seqs;
    ghost var c := Current(seqs0, StudentCounter);
    total := 0;
    var i := 0;
    assert docs0[..0] == [];
    while i < |students.docs|
      invariant |docs0| == |students.docs|
      invariant DoneUpTo(students.docs, docs0, c, i)
      invariant total == CountMissing(docs0[..i])
      invariant counters.seqs == Draws(seqs0, StudentCounter, total).0
    {
      DoneStep(students.docs, docs0, c, i);
      var doc := students.docs[i];
      if doc.studentId.None? {
        DrawnCounter(seqs0, StudentCounter, total);
        var docs := students.docs;
        var newId := counters.NextSequence(StudentCounter);
        students.docs := docs[i := doc.(studentId := Some(newId))];
        total := total + 1;
      }
      i := i + 1;
    }
    assert docs0[..i] == docs0;
    DoneAll(students.docs, docs0, c);
  }

  /** Assigning a document keeps every earlier one as it was. */
  lemma BackfilledPrefix(docs: seq<Student>, c: int, j: int)
    requires 0 <= j < |docs| - 1
    ensures Backfilled(docs, c)[j] == Backfilled(docs[..|docs| - 1], c)[j]
  {
  }

  /**
   * Document by document: one that had an id keeps it, one that lacked it
   * gets c + 1 + the number of earlier documents that lacked one; `_id`
   * never changes.
   */
  lemma {:induction false} BackfilledAt(docs: seq<Student>, c: int, j: int)
    requires 0 <= j < |docs|
    ensures Backfilled(docs, c)[j].oid == docs[j].oid
    ensures docs[j].studentId.Some? ==> Backfilled(docs, c)[j] == docs[j]
    ensures docs[j].studentId.None? ==>
      Backfilled(docs, c)[j].studentId == Some(c + CountMissing(docs[..j]) + 1)
    ensures docs[j].studentId.None? ==>
      Backfilled(docs, c)[j] == docs[j].(studentId := Some(c + CountMissing(docs[..j]) + 1))
  {
    var n := |docs| - 1;
    if j < n {
      BackfilledAt(docs[..n], c, j);
      assert docs[..n][..j] == docs[..j];
    }
  }

  /** After the backfill every student has a `student_id`, and nobody who had one is touched. */
  lemma AllStudentsHaveIds(docs: seq<Student>, c: int)
    ensures forall j :: 0 <= j < |docs| ==> Backfilled(docs, c)[j].studentId.Some?
    ensures forall j :: 0 <= j < |docs| && docs[j].studentId.Some? ==> Backfilled(docs, c)[j] == docs[j]
    ensures CountMissing(Backfilled(docs, c)) == 0
  {
    forall j | 0 <= j < |docs|
      ensures Backfilled(docs, c)[j].studentId.Some?
      ensures docs[j].studentId.Some? ==> Backfilled(docs, c)[j] == docs[j]
    {
      BackfilledAt(docs, c, j);
    }
  }

  /** Fewer earlier gaps before an earlier document: the count of gaps grows along the documents. */
  lemma {:induction false} CountMissingGrows(docs: seq<Student>, i: int, j: int)
    requires 0 <= i < j <= |docs|
    requires docs[i].studentId.None?
    ensures CountMissing(docs[..i]) < CountMissing(docs[..j])
  {
    if j == i + 1 {
      assert docs[..j][..i] == docs[..i];
    } else {
      CountMissingGrows(docs, i, j - 1);
      assert docs[..j][..j - 1] == docs[..j - 1];
    }
  }

  /**
   * The ids handed out are c+1, ..., c+k, with k the number of documents
   * that lacked one: each lies in that range, no two documents share one,
   * and every value in the range goes to some document.
   */
  lemma AssignedIdsAreConsecutive(docs: seq<Student>, c: int)
    ensures forall j :: 0 <= j < |docs| && docs[j].studentId.None? ==>
      Backfilled(docs, c)[j].studentId.Some? &&
      c < Backfilled(docs, c)[j].studentId.value <= c + CountMissing(docs)
    ensures forall i, j :: 0 <= i < j < |docs| && docs[i].studentId.None? && docs[j].studentId.None? ==>
      Backfilled(docs, c)[i].studentId != Backfilled(docs, c)[j].studentId
    ensures forall v :: c < v <= c + CountMissing(docs) ==> IdGiven(docs, c, v)
  {
    forall j | 0 <= j < |docs| && docs[j].studentId.None?
      ensures Backfilled(docs, c)[j].studentId.Some? &&
        c < Backfilled(docs, c)[j].studentId.value <= c + CountMissing(docs)
    {
      BackfilledAt(docs, c, j);
      CountMissingGrows(docs, j, |docs|);
      assert docs[..|docs|] == docs;
    }
    forall i, j | 0 <= i < j < |docs| && docs[i].studentId.None? && docs[j].studentId.None?
      ensures Backfilled(docs, c)[i].studentId != Backfilled(docs, c)[j].studentId
    {
      BackfilledAt(docs, c, i);
      BackfilledAt(docs, c, j);
      CountMissingGrows(docs, i, j);
    }
    AssignedIdsCoverRange(docs, c);
  }

  /** Some document that lacked an id received `v`. */
  predicate IdGiven(docs: seq<Student>, c: int, v: int) {
    exists j :: 0 <= j < |docs| && docs[j].studentId.None? && Backfilled(docs, c)[j].studentId == Some(v)
  }

  lemma {:induction false} AssignedIdsCoverRange(docs: seq<Student>, c: int)
    ensures forall v :: c < v <= c + CountMissing(docs) ==> IdGiven(docs, c, v)
  {
    if docs != [] {
      var n := |docs| - 1;
      AssignedIdsCoverRange(docs[..n], c);
      forall v | c < v <= c + CountMissing(docs)
        ensures IdGiven(docs, c, v)
      {
        if v <= c + CountMissing(docs[..n]) {
          assert IdGiven(docs[..n], c, v);
          var j :| 0 <= j < n && docs[..n][j].studentId.None? && Backfilled(docs[..n], c)[j].studentId == Some(v);
          BackfilledPrefix(docs, c, j);
          assert docs[j] == docs[..n][j];
          assert 0 <= j < |docs| && docs[j].studentId.None? && Backfilled(docs, c)[j].studentId == Some(v);
        } else {
          assert docs[n].studentId.None?;
          assert Backfilled(docs, c)[n].studentId == Some(v);
          assert 0 <= n < |docs| && docs[n].studentId.None? && Backfilled(docs, c)[n].studentId == Some(v);
        }
      }
    }
  }

  /**
   * Nothing keeps a drawn id apart from the ids already present: a student
   * holding id 1 and a fresh counter leave two students with id 1.
   */
  lemma CounterIdsMayCollide()
    ensures var docs := [Student(1, Some(1)), Student(2, None)];
      var after := Backfilled(docs, Current(map[], StudentCounter));
      after[0].studentId == after[1].studentId == Some(1)
  {
    var docs := [Student(1, Some(1)), Student(2, None)];
    assert docs[..1][..0] == [];
    assert CountMissing(docs[..1]) == 0;
  }

  /** No two students that have a `student_id` share it. */
  predicate DistinctIds(docs: seq<Student>) {
    forall i, j :: 0 <= i < j < |docs| && docs[i].studentId.Some? && docs[j].studentId.Some? ==>
      docs[i].studentId != docs[j].studentId
  }

  /** The highest `student_id` present, if any student has one. */
  function MaxStudentId(docs: seq<Student>): (r: Option<int>)
    ensures r.None? <==> forall j :: 0 <= j < |docs| ==> docs[j].studentId.None?
    ensures r.Some? ==> forall j :: 0 <= j < |docs| && docs[j].studentId.Some? ==> docs[j].studentId.value <= r.value
    ensures r.Some? ==> exists j :: 0 <= j < |docs| && docs[j].studentId == Some(r.value)
  {
    if docs == [] then None
    else
      var n := |docs| - 1;
      var rest := MaxStudentId(docs[..n]);
      assert forall j :: 0 <= j < n ==> docs[..n][j] == docs[j];
      match docs[n].studentId
      case None => rest
      case Some(id) =>
        if rest.Some? && rest.value >= id then rest else Some(id)
  }

  /** The first id app.py's `main` hands out: one past the highest present, or 1. */
  function StartId(docs: seq<Student>): (r: int)
    ensures forall j :: 0 <= j < |docs| && docs[j].studentId.Some? ==> docs[j].studentId.value < r
  {
    match MaxStudentId(docs)
    case Some(m) => m + 1
    case None => 1
  }

  /** The documents after app.py's `main`: numbered upwards from `StartId`. */
  function FromMax(docs: seq<Student>): seq<Student> {
    Backfilled(docs, StartId(docs) - 1)
  }

  /**
   * The `main` in app.py: the documents lacking a `student_id` are numbered
   * start, start+1, ... in order; the result is how many were numbered.
   */
  method BackfillFromMax(students: StudentCollection) returns (count: nat)
    modifies students
    ensures students.docs == FromMax(old(students.docs))
    ensures count == CountMissing(old(students.docs))
  {
    ghost var docs0 := students.docs;
    var start := match MaxStudentId(students.docs) case Some(m) => m + 1 case None => 1;
    ghost var c := start - 1;
    count := 0;
    var i := 0;
    assert docs0[..0] == [];
    while i < |students.docs|
      invariant |docs0| == |students.docs|
      invariant DoneUpTo(students.docs, docs0, c, i)
      invariant count == CountMissing(docs0[..i])
    {
      DoneStep(students.docs, docs0, c, i);
      if students.docs[i].studentId.None? {
        var newId := start + count;
        students.docs := students.docs[i := students.docs[i].(studentId := Some(newId))];
        count := count + 1;
      }
      i := i + 1;
    }
    assert docs0[..i] == docs0;
    DoneAll(students.docs, docs0, c);
  }

  /**
   * Numbering from one past the highest id keeps ids unique: when no two
   * students shared an id before, no two share one afterwards, and every
   * student has one.
   */
  lemma FromMaxKeepsIdsDistinct(docs: seq<Student>)
    requires DistinctIds(docs)
    ensures DistinctIds(FromMax(docs))
    ensures forall j :: 0 <= j < |docs| ==> FromMax(docs)[j].studentId.Some?
  {
    var c := StartId(docs) - 1;
    var after := Backfilled(docs, c);
    AllStudentsHaveIds(docs, c);
    AssignedIdsAreConsecutive(docs, c);
    forall i, j | 0 <= i < j < |docs| && after[i].studentId.Some? && after[j].studentId.Some?
      ensures after[i].studentId != after[j].studentId
    {
      BackfilledAt(docs, c, i);
      BackfilledAt(docs, c, j);
    }
  }
}
