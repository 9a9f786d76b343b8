/** Statement-level access to a table keyed by primary key. */
module Tables {
  import opened Text
  import opened Wrappers

  /** SELECT ... WHERE p: the matching keys, found row by row in no particular order. */
  method SelectWhere<T>(table: map<string, T>, p: T -> bool) returns (ids: set<string>)
    ensures ids == set id | id in table && p(table[id])
  {
    var todo := table.Keys;
    ids := {};
    while todo != {}
      invariant todo <= table.Keys
      invariant ids == set id | id in table && id !in todo && p(table[id])
      decreases todo
    {
      var id :| id in todo;
      if p(table[id]) {
        ids := ids + {id};
      }
      todo := todo - {id};
    }
  }

  /** SELECT COUNT(*) > 0 WHERE p. */
  method Exists<T>(table: map<string, T>, p: T -> bool) returns (found: bool)
    ensures found <==> exists id :: id in table && p(table[id])
  {
    var ids := SelectWhere(table, p);
    found := ids != {};
    if found {
      var id :| id in ids;
      assert p(table[id]);
    } else {
      forall id | id in table
        ensures !p(table[id])
      {
        assert id !in ids;
      }
    }
  }

  /** UPDATE ... SET f WHERE p. */
  method UpdateWhere<T>(table: map<string, T>, p: T -> bool, f: T -> T) returns (out: map<string, T>)
    ensures out == Rewritten(table, p, f)
  {
    var todo := table.Keys;
    out := table;
    while todo != {}
      invariant todo <= table.Keys && out.Keys == table.Keys
      invariant forall id :: id in table ==> out[id] == if id !in todo && p(table[id]) then f(table[id]) else table[id]
      decreases todo
    {
      var id :| id in todo;
      if p(out[id]) {
        out := out[id := f(out[id])];
      }
      todo := todo - {id};
    }
  }

  function Rewritten<T>(table: map<string, T>, p: T -> bool, f: T -> T): map<string, T>
  {
    map id | id in table :: if p(table[id]) then f(table[id]) else table[id]
  }

  // ---------- ORDER BY ... LIMIT 1 ----------

  /** `before` orders the rows matching p strictly and totally. */
  ghost predicate Orders<T(!new)>(table: map<string, T>, p: T -> bool, before: (T, T) -> bool)
  {
    && (forall a, b :: a in table && b in table && a != b && p(table[a]) && p(table[b])
          ==> before(table[a], table[b]) || before(table[b], table[a]))
    && (forall a, b :: a in table && b in table && before(table[a], table[b]) ==> !before(table[b], table[a]))
    && (forall a, b, c :: a in table && b in table && c in table
          ==> (before(table[a], table[b]) && before(table[b], table[c]) ==> before(table[a], table[c])))
  }

  ghost predicate IsFirst<T>(table: map<string, T>, p: T -> bool, before: (T, T) -> bool, id: string)
  {
    && id in table && p(table[id])
    && forall other :: other in table && other != id && p(table[other]) ==> before(table[id], table[other])
  }

  ghost function First<T>(table: map<string, T>, p: T -> bool, before: (T, T) -> bool): Option<string>
  {
    if exists id :: IsFirst(table, p, before, id) then
      var id :| IsFirst(table, p, before, id);
      Some(id)
    else
      None
  }

  method SelectFirst<T(!new)>(table: map<string, T>, p: T -> bool, before: (T, T) -> bool)
      returns (pick: Option<string>)
    requires Orders(table, p, before)
    ensures pick == First(table, p, before)
    ensures pick.Some? ==> IsFirst(table, p, before, pick.value)
    ensures pick.None? ==> forall id :: id in table ==> !p(table[id])
  {
    var todo := table.Keys;
    pick := None;
    while todo != {}
      invariant todo <= table.Keys
      invariant pick.None? ==> forall id :: id in table && id !in todo ==> !p(table[id])
      invariant pick.Some? ==> pick.value in table && pick.value !in todo && p(table[pick.value])
      invariant pick.Some? ==> forall id :: id in table && id !in todo && id != pick.value && p(table[id])
                                 ==> before(table[pick.value], table[id])
      decreases todo
    {
      var id :| id in todo;
      if p(table[id]) && (pick.None? || before(table[id], table[pick.value])) {
        pick := Some(id);
      }
      todo := todo - {id};
    }
    if pick.Some? {
      assert IsFirst(table, p, before, pick.value);
    }
  }

  ghost predicate Leads<T>(table: map<string, T>, before: (T, T) -> bool, ids: set<string>, first: string)
    requires ids <= table.Keys
  {
    first in ids && forall other :: other in ids && other != first ==> before(table[first], table[other])
  }

  lemma {:induction false} LeaderExists<T(!new)>(table: map<string, T>,
      p: T -> bool, before: (T, T) -> bool, ids: set<string>)
    returns (first: string)
    requires Orders(table, p, before)
    requires ids <= table.Keys && ids != {} && forall id :: id in ids ==> p(table[id])
    ensures Leads(table, before, ids, first)
  {
    var one :| one in ids;
    if ids == {one} {
      first := one;
    } else {
      var best := LeaderExists(table, p, before, ids - {one});
      first := if before(table[one], table[best]) then one else best;
      forall other | other in ids && other != first
        ensures before(table[first], table[other])
      {
        if other != one && other != best {
          assert before(table[best], table[other]);
        }
      }
    }
  }

  /** A row matches exactly when there is a first one. */
  lemma FirstSome<T(!new)>(table: map<string, T>, p: T -> bool, before: (T, T) -> bool)
    requires Orders(table, p, before)
    ensures First(table, p, before).Some? <==> exists id :: id in table && p(table[id])
    ensures First(table, p, before).Some? ==> IsFirst(table, p, before, First(table, p, before).value)
  {
    var ids := set id | id in table && p(table[id]);
    if id :| id in table && p(table[id]) {
      assert id in ids;
      var first := LeaderExists(table, p, before, ids);
      assert forall other :: other in table && p(table[other]) ==> other in ids;
      assert IsFirst(table, p, before, first);
    }
  }

  // ---------- ORDER BY id ----------

  ghost predicate IsLeast(ids: set<string>, id: string)
  {
    id in ids && forall other :: other in ids && other != id ==> Less(id, other)
  }

  lemma {:induction false} LeastExists(ids: set<string>) returns (id: string)
    requires ids != {}
    ensures IsLeast(ids, id)
  {
    var one :| one in ids;
    if ids == {one} {
      id := one;
    } else {
      var best := LeastExists(ids - {one});
      LessTotal(one, best);
      id := if Less(one, best) then one else best;
      forall other | other in ids && other != id
        ensures Less(id, other)
      {
        if other != one && other != best && id == one {
          LessTransitive(one, best, other);
        }
      }
    }
  }

  /** The ids in ascending order. */
  ghost function Ascending(ids: set<string>): seq<string>
  {
    if ids == {} then []
    else
      var least := LeastOf(ids);
      [least] + Ascending(ids - {least})
  }

  /** The listing holds exactly the ids, each once, in ascending order. */
  lemma {:induction false} AscendingIsSorted(ids: set<string>)
    ensures |Ascending(ids)| == |ids| && forall id :: id in Ascending(ids) <==> id in ids
    ensures forall i, j :: 0 <= i < j < |Ascending(ids)| ==> Less(Ascending(ids)[i], Ascending(ids)[j])
  {
    if ids != {} {
      var least := LeastOf(ids);
      AscendingIsSorted(ids - {least});
      var rest := Ascending(ids - {least});
      assert Ascending(ids) == [least] + rest;
      forall i, j | 0 <= i < j < |Ascending(ids)|
        ensures Less(Ascending(ids)[i], Ascending(ids)[j])
      {
        if i == 0 {
          assert rest[j - 1] in ids;
        }
      }
    }
  }

  ghost function LeastOf(ids: set<string>): (id: string)
    requires ids != {}
    ensures IsLeast(ids, id)
  {
    assert exists id :: IsLeast(ids, id) by {
      var id := LeastExists(ids);
    }
    var id :| IsLeast(ids, id);
    id
  }

  method SelectOrdered(ids: set<string>) returns (ordered: seq<string>)
    ensures ordered == Ascending(ids)
  {
    var todo := ids;
    ordered := [];
    while todo != {}
      invariant todo <= ids
      invariant Ascending(ids) == ordered + Ascending(todo)
      decreases todo
    {
      var least :| least in todo;
      var rest := todo - {least};
      while rest != {}
        invariant rest <= todo && least in todo && least !in rest
        invariant forall other :: other in todo && other !in rest && other != least ==> Less(least, other)
        decreases rest
      {
        var id :| id in rest;
        if Less(id, least) {
          forall other | other in todo && other !in rest && other != least
            ensures Less(id, other)
          {
            LessTransitive(id, least, other);
          }
          least := id;
        } else {
          LessTotal(id, least);
        }
        rest := rest - {id};
      }
      assert IsLeast(todo, least) && IsLeast(todo, LeastOf(todo));
      if least != LeastOf(todo) {
        LessAsymmetric(least, LeastOf(todo));
      }
      ordered := ordered + [least];
      todo := todo - {least};
    }
  }
}
