/** `MarkUtils`: operations on the list of string marks an object carries
    (its `internal_marks`). The list is passed in and the new list returned;
    `MarkErr` and `InpErr` are raised faults. */
module Mark {
  import opened Res

  /** `MarkErr`: adding a mark already present, or removing one that is not. */
  datatype MarkErr = AlreadyPresent(mark: string) | NoSuchMark(mark: string)

  /** `InpErr`: `decide` was given neither callback. */
  datatype InpErr = NoCallbacks

  /** The document field the update queries touch. */
  const MarksField: string := "internal_marks"

  /** A database update document: `{"$push": {field: mark}}` or
      `{"$pull": {field: mark}}`. */
  datatype Query = Push(field: string, mark: string) | Pull(field: string, mark: string)

  /** Which callback `decide` awaited, if any. */
  datatype Fired = CalledOnHas | CalledOnMissing | CalledNothing

  predicate NoDuplicates(marks: seq<string>) {
    forall i, j :: 0 <= i < j < |marks| ==> marks[i] != marks[j]
  }

  /** `has(mark, obj)` */
  predicate Has(mark: string, marks: seq<string>)
    ensures Has(mark, marks) <==> exists i :: 0 <= i < |marks| && marks[i] == mark
  {
    mark in marks
  }

  /** Where `list.remove` finds `mark`: its first occurrence. */
  function IndexOf(marks: seq<string>, mark: string): (i: nat)
    requires mark in marks
    ensures i < |marks| && marks[i] == mark
    ensures forall j :: 0 <= j < i ==> marks[j] != mark
    decreases |marks|
  {
    if marks[0] == mark then 0 else 1 + IndexOf(marks[1..], mark)
  }

  /** `add(mark, obj)`: appends an absent mark; a present one raises. */
  function Add(mark: string, marks: seq<string>): (r: Outcome<seq<string>, MarkErr>)
    ensures r.Raised? <==> Has(mark, marks)
    ensures r.Raised? ==> r.fault == AlreadyPresent(mark)
    ensures r.Returned? ==> |r.value| == |marks| + 1 && r.value[|marks|] == mark
    ensures r.Returned? ==> forall i :: 0 <= i < |marks| ==> r.value[i] == marks[i]
  {
    if mark in marks then Raised(AlreadyPresent(mark))
    else Returned(marks + [mark])
  }

  /** `remove(mark, obj)`: deletes the first occurrence of a present mark;
      an absent one raises. */
  function Remove(mark: string, marks: seq<string>): (r: Outcome<seq<string>, MarkErr>)
    ensures r.Raised? <==> !Has(mark, marks)
    ensures r.Raised? ==> r.fault == NoSuchMark(mark)
    ensures r.Returned? ==> multiset(r.value) == multiset(marks) - multiset{mark}
    ensures r.Returned? ==> exists i :: && 0 <= i < |marks| && marks[i] == mark && mark !in marks[..i]
                                        && r.value == marks[..i] + marks[i + 1..]
  {
    if mark !in marks then Raised(NoSuchMark(mark))
    else
      var i := IndexOf(marks, mark);
      assert marks == marks[..i] + [mark] + marks[i + 1..];
      Returned(marks[..i] + marks[i + 1..])
  }

  /** `get_add_upd_query(mark, obj)`: the `$push` of `mark`, refused exactly
      when `add` would refuse it. */
  function AddUpdQuery(mark: string, marks: seq<string>): (r: Outcome<Query, MarkErr>)
    ensures r.Raised? <==> Add(mark, marks).Raised?
    ensures r.Raised? ==> r.fault == Add(mark, marks).fault
    ensures r.Returned? ==> r.value == Push(MarksField, mark)
  {
    if mark in marks then Raised(AlreadyPresent(mark))
    else Returned(Push(MarksField, mark))
  }

  /** `get_remove_upd_query(mark, obj)`: the `$pull` of `mark`, refused
      exactly when `remove` would refuse it. */
  function RemoveUpdQuery(mark: string, marks: seq<string>): (r: Outcome<Query, MarkErr>)
    ensures r.Raised? <==> Remove(mark, marks).Raised?
    ensures r.Raised? ==> r.fault == Remove(mark, marks).fault
    ensures r.Returned? ==> r.value == Pull(MarksField, mark)
  {
    if mark !in marks then Raised(NoSuchMark(mark))
    else Returned(Pull(MarksField, mark))
  }

  /** `decide(mark, obj, on_has=..., on_missing=...)`, with `onHas` and
      `onMissing` saying which callbacks were given: raises `InpErr` with
      neither; `on_has` fires only when given and the mark is present;
      otherwise `on_missing` fires if given, even for a present mark. */
  function Decide(mark: string, marks: seq<string>, onHas: bool, onMissing: bool): (r: Outcome<Fired, InpErr>)
    ensures r.Raised? <==> !onHas && !onMissing
    ensures r == Returned(CalledOnHas) <==> onHas && Has(mark, marks)
    ensures r == Returned(CalledOnMissing) <==> onMissing && !(onHas && Has(mark, marks))
    ensures r == Returned(CalledNothing) <==> onHas && !onMissing && !Has(mark, marks)
  {
    if !onHas && !onMissing then Raised(NoCallbacks)
    else if onHas && Has(mark, marks) then Returned(CalledOnHas)
    else if onMissing then Returned(CalledOnMissing)
    else Returned(CalledNothing)
  }

  /** `add` and `remove` keep the marks free of duplicates; after `add` the
      mark is present, after `remove` it is gone. */
  lemma AddRemoveKeepNoDuplicates(mark: string, marks: seq<string>)
    requires NoDuplicates(marks)
    ensures Add(mark, marks).Returned? ==> NoDuplicates(Add(mark, marks).value) && Has(mark, Add(mark, marks).value)
    ensures Remove(mark, marks).Returned? ==> NoDuplicates(Remove(mark, marks).value) && !Has(mark, Remove(mark, marks).value)
  {
  }

  /** `remove(m)` right after a successful `add(m)` restores the list. */
  lemma AddRemoveRoundTrip(mark: string, marks: seq<string>)
    requires Add(mark, marks).Returned?
    ensures Remove(mark, Add(mark, marks).value) == Returned(marks)
  {
    var added := marks + [mark];
    assert forall j :: 0 <= j < |marks| ==> added[j] != mark;
    assert IndexOf(added, mark) == |marks|;
    assert added[..|marks|] + added[|marks| + 1..] == marks;
  }

  /** `add(m)` right after a successful `remove(m)` gives back the same marks,
      though `m` moves to the end. */
  lemma RemoveAddSameMarks(mark: string, marks: seq<string>)
    requires Remove(mark, marks).Returned?
    ensures Add(mark, Remove(mark, marks).value).Returned? <==> !Has(mark, Remove(mark, marks).value)
    ensures Add(mark, Remove(mark, marks).value).Returned? ==> multiset(Add(mark, Remove(mark, marks).value).value) == multiset(marks)
  {
  }

  /** What the database does with an update query: `$push` appends the
      mark, `$pull` removes every element equal to it. */
  function Apply(q: Query, marks: seq<string>): seq<string>
    decreases |marks|
  {
    match q
    case Push(_, m) => marks + [m]
    case Pull(_, m) =>
      if |marks| == 0 then []
      else (if marks[0] == m then [] else [marks[0]]) + Apply(q, marks[1..])
  }

  lemma {:induction false} PullOfAbsent(m: string, f: string, marks: seq<string>)
    requires m !in marks
    ensures Apply(Pull(f, m), marks) == marks
    decreases |marks|
  {
    if |marks| > 0 {
      PullOfAbsent(m, f, marks[1..]);
      assert marks == [marks[0]] + marks[1..];
    }
  }

  lemma {:induction false} PullOfUnique(m: string, f: string, marks: seq<string>)
    requires NoDuplicates(marks) && m in marks
    ensures Apply(Pull(f, m), marks) == marks[..IndexOf(marks, m)] + marks[IndexOf(marks, m) + 1..]
    decreases |marks|
  {
    var tail := marks[1..];
    assert marks == [marks[0]] + tail;
    if marks[0] == m {
      assert m !in tail by {
        forall j | 0 <= j < |tail|
          ensures tail[j] != m
        {
          assert tail[j] == marks[j + 1];
        }
      }
      PullOfAbsent(m, f, tail);
    } else {
      assert NoDuplicates(tail) by {
        forall a, b | 0 <= a < b < |tail|
          ensures tail[a] != tail[b]
        {
          assert tail[a] == marks[a + 1] && tail[b] == marks[b + 1];
        }
      }
      PullOfUnique(m, f, tail);
      var i := IndexOf(tail, m);
      assert IndexOf(marks, m) == i + 1;
      assert marks[..i + 1] == [marks[0]] + tail[..i];
      assert marks[i + 2..] == tail[i + 1..];
    }
  }

  /** The update queries do in the database what `add` and `remove` do in
      memory, on a list free of duplicates. */
  lemma QueriesAgreeWithInMemory(mark: string, marks: seq<string>)
    requires NoDuplicates(marks)
    ensures AddUpdQuery(mark, marks).Returned? ==> Add(mark, marks) == Returned(Apply(AddUpdQuery(mark, marks).value, marks))
    ensures RemoveUpdQuery(mark, marks).Returned? ==> Remove(mark, marks) == Returned(Apply(RemoveUpdQuery(mark, marks).value, marks))
  {
    if mark in marks {
      PullOfUnique(mark, MarksField, marks);
    }
  }
}
