/**
 * Orders used by the store's indexes and by the date sorts of the panels.
 *
 * Index keys and ISO `YYYY-MM-DD` dates are strings and are compared
 * lexicographically, character by character.  An IndexedDB index keeps its
 * records ordered by (index value, primary key); `Index` below computes that
 * order for a map keyed by primary key.
 */
module Order {

  /** Strict lexicographic order on strings. */
  predicate StrLt(a: string, b: string)
  {
    if |a| == 0 then |b| > 0
    else if |b| == 0 then false
    else if a[0] != b[0] then a[0] < b[0]
    else StrLt(a[1..], b[1..])
  }

  /** Non-strict lexicographic order on strings. */
  predicate StrLe(a: string, b: string)
  {
    a == b || StrLt(a, b)
  }

  lemma {:induction false} StrLtIrreflexive(a: string)
    ensures !StrLt(a, a)
  {
    if |a| > 0 {
      StrLtIrreflexive(a[1..]);
    }
  }

  lemma {:induction false} StrLtTransitive(a: string, b: string, c: string)
    requires StrLt(a, b) && StrLt(b, c)
    ensures StrLt(a, c)
  {
    if |a| > 0 && |b| > 0 && |c| > 0 && a[0] == b[0] && b[0] == c[0] {
      StrLtTransitive(a[1..], b[1..], c[1..]);
    }
  }

  lemma {:induction false} StrLtTotal(a: string, b: string)
    requires a != b
    ensures StrLt(a, b) || StrLt(b, a)
  {
    if |a| > 0 && |b| > 0 && a[0] == b[0] {
      assert a == [a[0]] + a[1..] && b == [b[0]] + b[1..];
      StrLtTotal(a[1..], b[1..]);
    }
  }

  lemma StrLtAsymmetric(a: string, b: string)
    requires StrLt(a, b)
    ensures !StrLt(b, a)
  {
    if StrLt(b, a) {
      StrLtTransitive(a, b, a);
      StrLtIrreflexive(a);
    }
  }

  lemma StrLeTotal(a: string, b: string)
    ensures StrLe(a, b) || StrLe(b, a)
  {
    if a != b {
      StrLtTotal(a, b);
    }
  }

  lemma StrLeAntisymmetric(a: string, b: string)
    requires StrLe(a, b) && StrLe(b, a)
    ensures a == b
  {
    if a != b {
      StrLtAsymmetric(a, b);
    }
  }

  lemma StrLeTransitive(a: string, b: string, c: string)
    requires StrLe(a, b) && StrLe(b, c)
    ensures StrLe(a, c)
  {
    if a != b && b != c {
      StrLtTransitive(a, b, c);
    }
  }

  /** An index entry: the indexed field's value, then the primary key. */
  datatype Key = Key(field: string, id: string)

  /** The order of an index: by field value, ties broken by primary key. */
  predicate KeyLt(x: Key, y: Key)
  {
    StrLt(x.field, y.field) || (x.field == y.field && StrLt(x.id, y.id))
  }

  lemma KeyLtIrreflexive(x: Key)
    ensures !KeyLt(x, x)
  {
    StrLtIrreflexive(x.field);
    StrLtIrreflexive(x.id);
  }

  lemma KeyLtTransitive(x: Key, y: Key, z: Key)
    requires KeyLt(x, y) && KeyLt(y, z)
    ensures KeyLt(x, z)
  {
    if StrLt(x.field, y.field) && StrLt(y.field, z.field) {
      StrLtTransitive(x.field, y.field, z.field);
    } else if x.field == y.field && y.field == z.field {
      StrLtTransitive(x.id, y.id, z.id);
    }
  }

  lemma KeyLtAsymmetric(x: Key, y: Key)
    requires KeyLt(x, y)
    ensures !KeyLt(y, x)
  {
    if KeyLt(y, x) {
      KeyLtTransitive(x, y, x);
      KeyLtIrreflexive(x);
    }
  }

  lemma KeyLtTotal(x: Key, y: Key)
    requires x != y
    ensures KeyLt(x, y) || KeyLt(y, x)
  {
    if x.field != y.field {
      StrLtTotal(x.field, y.field);
    } else {
      StrLtTotal(x.id, y.id);
    }
  }

  /** The index key of the record stored under primary key `id`. */
  function KeyOf<T>(m: map<string, T>, field: T -> string, id: string): Key
    requires id in m
  {
    Key(field(m[id]), id)
  }

  /** `id` comes first, in index order, among the ids of `s`. */
  predicate IsFirst<T>(m: map<string, T>, field: T -> string, s: set<string>, id: string)
    requires s <= m.Keys
  {
    id in s && forall j :: j in s && j != id ==> KeyLt(KeyOf(m, field, id), KeyOf(m, field, j))
  }

  lemma {:induction false} FirstExists<T>(m: map<string, T>, field: T -> string, s: set<string>)
    requires s <= m.Keys && s != {}
    ensures exists id :: IsFirst(m, field, s, id)
    decreases |s|
  {
    var x :| x in s;
    if s == {x} {
      assert IsFirst(m, field, s, x);
    } else {
      var rest := s - {x};
      FirstExists(m, field, rest);
      var y :| IsFirst(m, field, rest, y);
      var kx, ky := KeyOf(m, field, x), KeyOf(m, field, y);
      assert kx != ky;
      if KeyLt(kx, ky) {
        forall j | j in s && j != x
          ensures KeyLt(kx, KeyOf(m, field, j))
        {
          if j != y {
            KeyLtTransitive(kx, ky, KeyOf(m, field, j));
          }
        }
        assert IsFirst(m, field, s, x);
      } else {
        KeyLtTotal(kx, ky);
        assert IsFirst(m, field, s, y);
      }
    }
  }

  lemma FirstUnique<T>(m: map<string, T>, field: T -> string, s: set<string>, a: string, b: string)
    requires s <= m.Keys && IsFirst(m, field, s, a) && IsFirst(m, field, s, b)
    ensures a == b
  {
    if a != b {
      KeyLtAsymmetric(KeyOf(m, field, a), KeyOf(m, field, b));
    }
  }

  lemma AllFirstUnique<T>(m: map<string, T>, field: T -> string, s: set<string>)
    requires s <= m.Keys
    ensures forall a, b :: IsFirst(m, field, s, a) && IsFirst(m, field, s, b) ==> a == b
  {
    forall a, b | IsFirst(m, field, s, a) && IsFirst(m, field, s, b)
      ensures a == b
    {
      FirstUnique(m, field, s, a, b);
    }
  }

  /** The id of `s` that comes first in index order. */
  function First<T>(m: map<string, T>, field: T -> string, s: set<string>): (id: string)
    requires s <= m.Keys && s != {}
    ensures IsFirst(m, field, s, id)
  {
    FirstExists(m, field, s);
    AllFirstUnique(m, field, s);
    var id :| IsFirst(m, field, s, id);
    id
  }

  /** The ids are in strictly increasing index order. */
  predicate InIndexOrder<T>(m: map<string, T>, field: T -> string, ids: seq<string>)
  {
    (forall i :: 0 <= i < |ids| ==> ids[i] in m) &&
    forall i, j :: 0 <= i < j < |ids| ==> KeyLt(KeyOf(m, field, ids[i]), KeyOf(m, field, ids[j]))
  }

  /**
   * The ids of `s` listed in index order: what an index over `field` yields
   * when it is read in its natural ("next") direction.
   */
  function IndexIds<T>(m: map<string, T>, field: T -> string, s: set<string>): (ids: seq<string>)
    requires s <= m.Keys
    ensures |ids| == |s|
    ensures forall id :: id in ids <==> id in s
    ensures InIndexOrder(m, field, ids)
    decreases |s|
  {
    if s == {} then []
    else
      var f := First(m, field, s);
      [f] + IndexIds(m, field, s - {f})
  }

  /** Strictly increasing ids are pairwise distinct. */
  lemma InIndexOrderDistinct<T>(m: map<string, T>, field: T -> string, ids: seq<string>, i: int, j: int)
    requires InIndexOrder(m, field, ids) && 0 <= i < j < |ids|
    ensures ids[i] != ids[j]
  {
    KeyLtIrreflexive(KeyOf(m, field, ids[i]));
  }

  /** The stored records at `ids`, in that order. */
  function Lookup<T>(m: map<string, T>, ids: seq<string>): (r: seq<T>)
    requires forall i :: 0 <= i < |ids| ==> ids[i] in m
    ensures |r| == |ids|
    ensures forall i :: 0 <= i < |ids| ==> r[i] == m[ids[i]]
  {
    seq(|ids|, i requires 0 <= i < |ids| => m[ids[i]])
  }

  /** Every record of `m` in ascending index order on `field`. */
  function Ascending<T>(m: map<string, T>, field: T -> string): (r: seq<T>)
  {
    Lookup(m, IndexIds(m, field, m.Keys))
  }

  /** Every record of `m` in descending index order: a cursor opened with direction "prev". */
  function Descending<T>(m: map<string, T>, field: T -> string): (r: seq<T>)
  {
    var up := Ascending(m, field);
    seq(|up|, i requires 0 <= i < |up| => up[|up| - 1 - i])
  }

  lemma AscendingContents<T>(m: map<string, T>, field: T -> string)
    ensures |Ascending(m, field)| == |m|
    ensures forall x :: x in Ascending(m, field) <==> x in m.Values
  {
    var ids := IndexIds(m, field, m.Keys);
    var r := Ascending(m, field);
    assert |m.Keys| == |m|;
    forall x | x in m.Values
      ensures x in r
    {
      var id :| id in m && m[id] == x;
      var i :| 0 <= i < |ids| && ids[i] == id;
      assert r[i] == x;
    }
  }

  /** Reading an index in its natural direction yields non-decreasing field values. */
  lemma AscendingSorted<T>(m: map<string, T>, field: T -> string)
    ensures SortedByDate(Ascending(m, field), field)
  {
    var ids := IndexIds(m, field, m.Keys);
    var r := Ascending(m, field);
    forall i, j | 0 <= i < j < |r|
      ensures StrLe(field(r[i]), field(r[j]))
    {
      assert KeyLt(KeyOf(m, field, ids[i]), KeyOf(m, field, ids[j]));
    }
  }

  // ---------------------------------------------------------------------
  // Sort by a date field (`Array.prototype.sort` with a comparator
  // on the dates' times, which agrees with the dates' string order).

  /** `s` is in non-decreasing date order. */
  predicate SortedByDate<T>(s: seq<T>, date: T -> string)
  {
    forall i, j :: 0 <= i < j < |s| ==> StrLe(date(s[i]), date(s[j]))
  }

  /** Inserts `x` after every element whose date is not later than its own. */
  function InsertByDate<T>(s: seq<T>, x: T, date: T -> string): (r: seq<T>)
    requires SortedByDate(s, date)
    ensures multiset(r) == multiset(s) + multiset{x}
    ensures SortedByDate(r, date)
  {
    if s == [] then [x]
    else if StrLt(date(x), date(s[0])) then
      InsertFront(s, x, date);
      [x] + s
    else
      var tail := InsertByDate(s[1..], x, date);
      InsertBehind(s, x, date, tail);
      [s[0]] + tail
  }

  /** An element earlier than the head of a sorted list can go in front of it. */
  lemma InsertFront<T>(s: seq<T>, x: T, date: T -> string)
    requires SortedByDate(s, date) && s != []
    requires StrLt(date(x), date(s[0]))
    ensures SortedByDate([x] + s, date)
  {
    forall j | 0 <= j < |s| ensures StrLe(date(x), date(s[j])) {
      if j > 0 { StrLeTransitive(date(x), date(s[0]), date(s[j])); }
    }
    var r := [x] + s;
    forall i, j | 0 <= i < j < |r| ensures StrLe(date(r[i]), date(r[j])) {
      if i > 0 {
        assert r[i] == s[i - 1] && r[j] == s[j - 1];
      }
    }
  }

  /** The head of a sorted list stays in front of the rest with `x` inserted, when `x` is not earlier. */
  lemma InsertBehind<T>(s: seq<T>, x: T, date: T -> string, tail: seq<T>)
    requires SortedByDate(s, date) && s != []
    requires !StrLt(date(x), date(s[0]))
    requires multiset(tail) == multiset(s[1..]) + multiset{x}
    requires SortedByDate(tail, date)
    ensures multiset([s[0]] + tail) == multiset(s) + multiset{x}
    ensures SortedByDate([s[0]] + tail, date)
  {
    assert s == [s[0]] + s[1..];
    assert StrLe(date(s[0]), date(x)) by { StrLeTotal(date(s[0]), date(x)); }
    forall j | 0 <= j < |tail| ensures StrLe(date(s[0]), date(tail[j])) {
      var y := tail[j];
      assert y in multiset(tail);
      if y != x {
        assert y in multiset(s[1..]);
        var k :| 0 <= k < |s[1..]| && s[1..][k] == y;
        assert y == s[k + 1];
      }
    }
    var r := [s[0]] + tail;
    forall i, j | 0 <= i < j < |r| ensures StrLe(date(r[i]), date(r[j])) {
      if i > 0 {
        assert r[i] == tail[i - 1] && r[j] == tail[j - 1];
      } else {
        assert r[j] == tail[j - 1];
      }
    }
  }

  /** The elements of `s`, sorted by date. */
  function SortByDate<T>(s: seq<T>, date: T -> string): (r: seq<T>)
    ensures multiset(r) == multiset(s)
    ensures SortedByDate(r, date)
  {
    if s == [] then []
    else
      assert s == s[..|s| - 1] + [s[|s| - 1]];
      InsertByDate(SortByDate(s[..|s| - 1], date), s[|s| - 1], date)
  }
}
