/** `ORDER BY key LIMIT n`. */
module Query {

  predicate Distinct<K(==)>(s: seq<K>) { forall i, j | 0 <= i < j < |s| :: s[i] != s[j] }

  /** The first rows by key: ties come in any order. */
  predicate FirstBy<K(==)>(rows: set<K>, key: K -> int, limit: nat, out: seq<K>) {
    && Distinct(out) && (forall x | x in out :: x in rows)
    && (forall i, j | 0 <= i < j < |out| :: key(out[i]) <= key(out[j]))
    && |out| == (if limit < |rows| then limit else |rows|)
    && forall x, y | x in rows && x !in out && y in out :: key(y) <= key(x)
  }

  method Least<K(==)>(rows: set<K>, key: K -> int) returns (m: K)
    requires rows != {}
    ensures m in rows && forall x | x in rows :: key(m) <= key(x)
  {
    m :| m in rows;
    var rest := rows - {m};
    while rest != {}
      invariant rest <= rows && m in rows && forall x | x in rows - rest :: key(m) <= key(x)
      decreases |rest|
    {
      var x :| x in rest;
      rest := rest - {x};
      if key(x) < key(m) { m := x; }
    }
  }

  method Select<K(==)>(rows: set<K>, key: K -> int, limit: nat) returns (out: seq<K>)
    ensures FirstBy(rows, key, limit, out)
  {
    out := [];
    var rest := rows;
    while rest != {} && |out| < limit
      invariant |out| <= limit && |out| + |rest| == |rows| && rest <= rows
      invariant forall x | x in rows :: x in rest <==> x !in out
      invariant Distinct(out) && forall x | x in out :: x in rows
      invariant forall i, j | 0 <= i < j < |out| :: key(out[i]) <= key(out[j])
      invariant forall x, y | x in rest && y in out :: key(y) <= key(x)
      decreases |rest|
    {
      var m := Least(rest, key);
      rest := rest - {m};
      out := out + [m];
    }
  }
}
