// ORDER BY over a set of row ids.
module Query {
  // A total preorder on the listed ids, as a chain of ORDER BY columns gives.
  ghost predicate OrdersRows(ids: set<nat>, before: (nat, nat) -> bool) {
    && (forall x, y | x in ids && y in ids :: before(x, y) || before(y, x))
    && (forall x, y, z | x in ids && y in ids && z in ids :: before(x, y) && before(y, z) ==> before(x, z))
  }

  lemma PartOrdered(ids: set<nat>, part: set<nat>, before: (nat, nat) -> bool)
    requires OrdersRows(ids, before) && part <= ids
    ensures OrdersRows(part, before)
  {
  }

  lemma {:induction false} FirstExists(ids: set<nat>, before: (nat, nat) -> bool)
    requires ids != {} && OrdersRows(ids, before)
    ensures exists m :: m in ids && forall x :: x in ids ==> before(m, x)
    decreases |ids|
  {
    var k :| k in ids;
    var rest := ids - {k};
    if rest == {} {
      assert ids == {k};
    } else {
      PartOrdered(ids, rest, before);
      FirstExists(rest, before);
      var m :| m in rest && forall x :: x in rest ==> before(m, x);
      var first := if before(m, k) then m else k;
      assert forall x :: x in ids ==> before(first, x);
    }
  }

  // No row comes twice, and none comes after a row it must precede.
  ghost predicate InOrder(rows: seq<nat>, before: (nat, nat) -> bool) {
    forall i, k :: 0 <= i < k < |rows| ==> rows[i] != rows[k] && before(rows[i], rows[k])
  }

  lemma AppendInOrder(rows: seq<nat>, m: nat, before: (nat, nat) -> bool)
    requires InOrder(rows, before) && forall i :: 0 <= i < |rows| ==> rows[i] != m && before(rows[i], m)
    ensures InOrder(rows + [m], before)
  {
  }

  // Some such order exists.
  lemma {:induction false} OrderExists(ids: set<nat>, before: (nat, nat) -> bool) returns (rows: seq<nat>)
    requires OrdersRows(ids, before)
    ensures |rows| == |ids| && InOrder(rows, before)
    ensures forall x :: x in ids <==> x in rows
    decreases |ids|
  {
    if ids == {} {
      rows := [];
    } else {
      FirstExists(ids, before);
      var m :| m in ids && forall x :: x in ids ==> before(m, x);
      var rest := OrderExists(ids - {m}, before);
      rows := [m] + rest;
      assert forall i :: 0 <= i < |rest| ==> rest[i] in rest && rest[i] in ids;
    }
  }

  // Rows in query order; rows that compare equal come in any order.
  method OrderBy(ids: set<nat>, before: (nat, nat) -> bool) returns (rows: seq<nat>)
    requires OrdersRows(ids, before)
    ensures |rows| == |ids|
    ensures forall x :: x in ids <==> x in rows
    ensures InOrder(rows, before)
  {
    hide OrdersRows;
    var rest := ids;
    rows := [];
    while rest != {}
      invariant rest <= ids && |rows| + |rest| == |ids|
      invariant forall x :: x in ids <==> x in rest || x in rows
      invariant forall i, x :: 0 <= i < |rows| && x in rest ==> rows[i] != x && before(rows[i], x)
      invariant InOrder(rows, before)
      decreases |rest|
    {
      PartOrdered(ids, rest, before);
      FirstExists(rest, before);
      var m :| m in rest && forall x :: x in rest ==> before(m, x);
      AppendInOrder(rows, m, before);
      rows, rest := rows + [m], rest - {m};
    }
  }
}
