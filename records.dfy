/**
 * The list transformations shared by the two admin panels (parking locations and
 * parking rates): id allocation by maximum plus one, append, replace by id and
 * delete by id, together with the lookup used for the delete notification.
 * Both panels hold a list of records that carry an integer id next to their own
 * fields; `Rec<F>` is that record, with `F` the fields without the id.
 */
module Records {
  import opened Wrappers

  /** A stored record: the id assigned by the panel and the entity's fields. */
  datatype Rec<F> = Rec(id: int, fields: F)

  /** What a form hands to its panel: bare fields when creating, a full record when editing. */
  datatype Submission<F> = New(fields: F) | Existing(rec: Rec<F>)

  predicate HasId<F>(s: seq<Rec<F>>, id: int) {
    exists i :: 0 <= i < |s| && s[i].id == id
  }

  /** No two records of the list share an id. */
  ghost predicate UniqueIds<F>(s: seq<Rec<F>>) {
    forall i, j :: 0 <= i < j < |s| ==> s[i].id != s[j].id
  }

  /** Every id is a positive integer, as the seeds and the allocator produce. */
  ghost predicate PositiveIds<F>(s: seq<Rec<F>>) {
    forall i :: 0 <= i < |s| ==> s[i].id >= 1
  }

  /** `Math.max(...ids)` over a non-empty list. */
  function MaxId<F>(s: seq<Rec<F>>): (m: int)
    requires |s| > 0
    ensures HasId(s, m)
    ensures forall i :: 0 <= i < |s| ==> s[i].id <= m
  {
    if |s| == 1 then s[0].id
    else
      var rest := MaxId(s[1..]);
      if s[0].id >= rest then s[0].id else rest
  }

  /** The id given to a new record: one more than the largest id, or 1 for an empty list. */
  function NextId<F>(s: seq<Rec<F>>): (n: int)
    ensures forall i :: 0 <= i < |s| ==> s[i].id < n
    ensures |s| == 0 ==> n == 1
    ensures |s| > 0 ==> HasId(s, n - 1)
  {
    if |s| == 0 then 1 else MaxId(s) + 1
  }

  /** The list after an add: the old records in order, then the new one with a fresh id. */
  function Appended<F>(s: seq<Rec<F>>, f: F): (r: seq<Rec<F>>)
    ensures |r| == |s| + 1 && r[..|s|] == s
    ensures r[|s|] == Rec(NextId(s), f)
    ensures !HasId(s, r[|s|].id)
  {
    s + [Rec(NextId(s), f)]
  }

  /** The list after an edit: every record whose id is `rec.id` becomes `rec`. */
  function Replaced<F>(s: seq<Rec<F>>, rec: Rec<F>): (r: seq<Rec<F>>)
    ensures |r| == |s|
    ensures forall i :: 0 <= i < |s| ==> r[i] == (if s[i].id == rec.id then rec else s[i])
  {
    if |s| == 0 then []
    else [if s[0].id == rec.id then rec else s[0]] + Replaced(s[1..], rec)
  }

  /** The list after a delete: the records whose id is not `id`, in their order. */
  function Removed<F>(s: seq<Rec<F>>, id: int): (r: seq<Rec<F>>)
    ensures |r| <= |s|
    ensures forall i :: 0 <= i < |r| ==> r[i] in s && r[i].id != id
  {
    if |s| == 0 then []
    else (if s[0].id == id then [] else [s[0]]) + Removed(s[1..], id)
  }

  /** `find`: the first record whose id is `id`, if any. */
  function Find<F>(s: seq<Rec<F>>, id: int): (r: Option<Rec<F>>)
    ensures r.None? <==> !HasId(s, id)
    ensures r.Some? ==> exists i :: 0 <= i < |s| && s[i] == r.value && r.value.id == id
                                    && forall j :: 0 <= j < i ==> s[j].id != id
  {
    if |s| == 0 then None
    else if s[0].id == id then Some(s[0])
    else
      var r := Find(s[1..], id);
      assert r.Some? ==> exists i :: 0 <= i < |s| && s[i] == r.value && r.value.id == id
                                     && forall j :: 0 <= j < i ==> s[j].id != id by {
        if r.Some? {
          var i :| 0 <= i < |s| - 1 && s[1..][i] == r.value && r.value.id == id
                   && forall j :: 0 <= j < i ==> s[1..][j].id != id;
          assert s[i + 1] == r.value;
        }
      }
      r
  }

  // ----- Add -----

  /** An add keeps ids unique and positive. */
  lemma AppendedKeepsValid<F>(s: seq<Rec<F>>, f: F)
    requires UniqueIds(s) && PositiveIds(s)
    ensures UniqueIds(Appended(s, f)) && PositiveIds(Appended(s, f))
  {
    var r := Appended(s, f);
    forall i, j | 0 <= i < j < |r| ensures r[i].id != r[j].id {
      if j == |s| {
        assert r[i] == s[i];
      } else {
        assert r[i] == s[i] && r[j] == s[j];
      }
    }
    if |s| > 0 {
      var k :| 0 <= k < |s| && s[k].id == NextId(s) - 1;
    }
  }

  // ----- Edit -----

  /** An edit whose id is not in the list leaves the list as it was. */
  lemma ReplacedAbsent<F>(s: seq<Rec<F>>, rec: Rec<F>)
    requires !HasId(s, rec.id)
    ensures Replaced(s, rec) == s
  {
    var r := Replaced(s, rec);
    forall i | 0 <= i < |s| ensures r[i] == s[i] {
      assert s[i].id != rec.id;
    }
  }

  /** An edit keeps every id in its place, so ids stay unique and positive. */
  lemma ReplacedKeepsValid<F>(s: seq<Rec<F>>, rec: Rec<F>)
    requires UniqueIds(s) && PositiveIds(s)
    ensures forall i :: 0 <= i < |s| ==> Replaced(s, rec)[i].id == s[i].id
    ensures UniqueIds(Replaced(s, rec)) && PositiveIds(Replaced(s, rec))
  {
  }

  /** With unique ids, an edit of a present id replaces exactly one record. */
  lemma ReplacedExactlyOne<F>(s: seq<Rec<F>>, rec: Rec<F>)
    requires UniqueIds(s) && HasId(s, rec.id)
    ensures exists i :: 0 <= i < |s| && s[i].id == rec.id && Replaced(s, rec)[i] == rec
                        && forall j :: 0 <= j < |s| && j != i ==> Replaced(s, rec)[j] == s[j]
  {
    var i :| 0 <= i < |s| && s[i].id == rec.id;
    var r := Replaced(s, rec);
    forall j | 0 <= j < |s| && j != i ensures r[j] == s[j] {
      if j < i { assert s[j].id != s[i].id; } else { assert s[i].id != s[j].id; }
    }
  }

  // ----- Delete -----

  /** A delete whose id is not in the list leaves the list as it was. */
  lemma {:induction false} RemovedAbsent<F>(s: seq<Rec<F>>, id: int)
    requires !HasId(s, id)
    ensures Removed(s, id) == s
  {
    if |s| > 0 {
      assert s[0].id != id;
      assert !HasId(s[1..], id) by {
        forall i | 0 <= i < |s| - 1 ensures s[1..][i].id != id { assert s[i + 1].id != id; }
      }
      RemovedAbsent(s[1..], id);
      assert s == [s[0]] + s[1..];
    }
  }

  /** A delete keeps every record whose id differs from the deleted one. */
  lemma {:induction false} RemovedKeepsOthers<F>(s: seq<Rec<F>>, id: int, k: nat)
    requires k < |s| && s[k].id != id
    ensures s[k] in Removed(s, id)
  {
    if k > 0 {
      RemovedKeepsOthers(s[1..], id, k - 1);
      assert s[1..][k - 1] == s[k];
    }
  }

  /** A delete keeps the survivors in order: it distributes over concatenation. */
  lemma {:induction false} RemovedConcat<F>(a: seq<Rec<F>>, b: seq<Rec<F>>, id: int)
    ensures Removed(a + b, id) == Removed(a, id) + Removed(b, id)
  {
    if |a| == 0 {
      assert a + b == b;
    } else {
      assert (a + b)[0] == a[0];
      assert (a + b)[1..] == a[1..] + b;
      RemovedConcat(a[1..], b, id);
    }
  }

  /** On a one-record list a delete keeps or drops that record by its id alone. */
  lemma RemovedSingleton<F>(x: Rec<F>, id: int)
    ensures Removed([x], id) == if x.id == id then [] else [x]
  {
    assert [x][1..] == [];
  }

  /** The tail of a list with unique ids has unique ids, none equal to the head's. */
  lemma UniqueTail<F>(s: seq<Rec<F>>)
    requires |s| > 0 && UniqueIds(s)
    ensures UniqueIds(s[1..])
    ensures forall i :: 0 <= i < |s| - 1 ==> s[1..][i].id != s[0].id
  {
    forall i, j | 0 <= i < j < |s| - 1 ensures s[1..][i].id != s[1..][j].id {
      assert s[1..][i] == s[i + 1] && s[1..][j] == s[j + 1];
    }
  }

  /** Putting a record with a new id in front of a list with unique ids keeps them unique. */
  lemma UniqueCons<F>(x: Rec<F>, t: seq<Rec<F>>)
    requires UniqueIds(t)
    requires forall i :: 0 <= i < |t| ==> t[i].id != x.id
    ensures UniqueIds([x] + t)
  {
    var r := [x] + t;
    forall i, j | 0 <= i < j < |r| ensures r[i].id != r[j].id {
      assert r[j] == t[j - 1];
      if i > 0 { assert r[i] == t[i - 1]; }
    }
  }

  /** A delete keeps ids unique and positive. */
  lemma {:induction false} RemovedKeepsValid<F>(s: seq<Rec<F>>, id: int)
    requires UniqueIds(s) && PositiveIds(s)
    ensures UniqueIds(Removed(s, id)) && PositiveIds(Removed(s, id))
  {
    var r := Removed(s, id);
    forall i | 0 <= i < |r| ensures r[i].id >= 1 {
      assert r[i] in s;
    }
    if |s| > 0 {
      UniqueTail(s);
      RemovedKeepsValid(s[1..], id);
      var rest := Removed(s[1..], id);
      if s[0].id != id {
        forall i | 0 <= i < |rest| ensures rest[i].id != s[0].id {
          assert rest[i] in s[1..];
        }
        UniqueCons(s[0], rest);
        assert r == [s[0]] + rest;
      } else {
        assert r == rest;
      }
    }
  }

  /** With unique ids, deleting a present id removes exactly one record. */
  lemma {:induction false} RemovedCount<F>(s: seq<Rec<F>>, id: int)
    requires UniqueIds(s) && HasId(s, id)
    ensures |Removed(s, id)| == |s| - 1
  {
    var tail := s[1..];
    assert UniqueIds(tail) by {
      forall i, j | 0 <= i < j < |tail| ensures tail[i].id != tail[j].id {
        assert tail[i] == s[i + 1] && tail[j] == s[j + 1];
      }
    }
    if s[0].id == id {
      assert !HasId(tail, id) by {
        forall i | 0 <= i < |tail| ensures tail[i].id != id { assert tail[i] == s[i + 1]; }
      }
      RemovedAbsent(tail, id);
    } else {
      var k :| 0 <= k < |s| && s[k].id == id;
      assert tail[k - 1].id == id;
      RemovedCount(tail, id);
    }
  }

  // ----- Id reuse -----

  /** After deleting the largest id m, every remaining id is below m. */
  lemma RemovedMaxBelow<F>(s: seq<Rec<F>>)
    requires |s| > 0
    ensures forall i :: 0 <= i < |Removed(s, MaxId(s))| ==>
              Removed(s, MaxId(s))[i].id < MaxId(s) && Removed(s, MaxId(s))[i] in s
  {
    var rest := Removed(s, MaxId(s));
    forall i | 0 <= i < |rest| ensures rest[i].id < MaxId(s) {
      assert rest[i] in s;
    }
  }

  /**
   * Ids are not a monotonic counter: after deleting the record with the largest
   * id m, the next add gets an id no larger than m.
   */
  lemma DeleteMaxThenAddNotAbove<F>(s: seq<Rec<F>>, f: F)
    requires |s| > 0 && PositiveIds(s)
    ensures var rest := Removed(s, MaxId(s));
            Appended(rest, f)[|rest|].id <= MaxId(s)
  {
    RemovedMaxBelow(s);
  }

  /** If m - 1 survives the delete of the largest id m, the next id is m again. */
  lemma NextIdAfterMaxWithPredecessor<F>(s: seq<Rec<F>>)
    requires |s| > 0 && HasId(s, MaxId(s) - 1)
    ensures NextId(Removed(s, MaxId(s))) == MaxId(s)
  {
    var m := MaxId(s);
    var rest := Removed(s, m);
    var k :| 0 <= k < |s| && s[k].id == m - 1;
    RemovedKeepsOthers(s, m, k);
    RemovedMaxBelow(s);
    var i :| 0 <= i < |rest| && rest[i].id == NextId(rest) - 1;
  }

  /** Every id left after a delete was in the list before. */
  lemma RemovedIdsFromOriginal<F>(s: seq<Rec<F>>, id: int, x: int)
    requires HasId(Removed(s, id), x)
    ensures HasId(s, x)
  {
    var rest := Removed(s, id);
    var i :| 0 <= i < |rest| && rest[i].id == x;
    assert rest[i] in s;
  }

  /** If the next id after deleting the largest id m is m, then m is 1 or m - 1 survives. */
  lemma NextIdAfterMaxReused<F>(s: seq<Rec<F>>)
    requires |s| > 0 && NextId(Removed(s, MaxId(s))) == MaxId(s)
    ensures MaxId(s) == 1 || HasId(s, MaxId(s) - 1)
  {
    var m := MaxId(s);
    var rest := Removed(s, m);
    if |rest| > 0 {
      assert HasId(rest, m - 1);
      RemovedIdsFromOriginal(s, m, m - 1);
    }
  }

  /** With positive ids, a list whose largest id is 1 is emptied by deleting id 1. */
  lemma RemovedAllOnes<F>(s: seq<Rec<F>>)
    requires |s| > 0 && PositiveIds(s) && MaxId(s) == 1
    ensures Removed(s, 1) == []
  {

  }

  /**
   * Deleting the record with the largest id m and then adding gives the new
   * record the id m again exactly when m is 1 or m - 1 is still in the list.
   */
  lemma DeleteMaxThenAddReuses<F>(s: seq<Rec<F>>, f: F)
    requires |s| > 0 && PositiveIds(s)
    ensures Appended(Removed(s, MaxId(s)), f)[|Removed(s, MaxId(s))|].id == MaxId(s)
            <==> (MaxId(s) == 1 || HasId(s, MaxId(s) - 1))
  {
    if HasId(s, MaxId(s) - 1) {
      NextIdAfterMaxWithPredecessor(s);
    } else if MaxId(s) == 1 {
      RemovedAllOnes(s);
    }
    if NextId(Removed(s, MaxId(s))) == MaxId(s) {
      NextIdAfterMaxReused(s);
    }
  }
}
