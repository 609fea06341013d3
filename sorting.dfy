/**
 * What `OrderBy` / `OrderByDescending` on one property promise about the
 * records the store returns: the same records, ordered by that property's
 * value. Text compares ordinally (SQLite's BINARY collation compares the
 * UTF-8 bytes, which orders as the code points do); numbers compare as
 * integers. The order among records with equal keys is not specified, and
 * nothing below depends on it.
 */
module Sorting {
  import opened DogDtos
  import opened Models

  datatype Direction = Ascending | Descending

  /** The value of the sort property of one record. */
  datatype Key = Text(s: string) | Number(n: int)

  /** The key of property `p` read off a DTO. */
  function DtoKeyOf(p: Property, d: DogDto): Key {
    match p
    case Name => Text(d.name)
    case Color => Text(d.color)
    case TailLength => Number(d.tailLength)
    case Weight => Number(d.weight)
  }

  /**
   * The value `EF.Property<object>(d, property.Name)` reads: the record's
   * field of that name. The Id never serves as a key, so the key is read off
   * the record's DTO just as well; Name and Color give text, the others numbers.
   */
  function KeyOf(p: Property, d: Dog): (k: Key)
    ensures k == DtoKeyOf(p, ToDto(d))
    ensures k.Text? <==> p == Name || p == Color
  {
    match p
    case Name => Text(d.name)
    case Color => Text(d.color)
    case TailLength => Number(d.tailLength)
    case Weight => Number(d.weight)
  }

  /**
   * Ordinal order on code points: `s` precedes `t` when it is a prefix of `t`
   * or is below it at the first position where they differ (see
   * TextLeIsLexicographic).
   */
  predicate TextLe(s: string, t: string): (b: bool)
    ensures s <= t ==> b
    decreases |s|
  {
    s == [] || (t != [] && (s[0] < t[0] || (s[0] == t[0] && TextLe(s[1..], t[1..]))))
  }

  /** `s` and `t` agree before position `k` and `s` is below `t` at `k`. */
  predicate FirstDifferenceBelow(s: string, t: string, k: int) {
    0 <= k < |s| && k < |t| && s[..k] == t[..k] && s[k] < t[k]
  }

  /** TextLe is the textbook lexicographic order. */
  lemma {:induction false} TextLeIsLexicographic(s: string, t: string)
    ensures TextLe(s, t) <==> s <= t || exists k :: FirstDifferenceBelow(s, t, k)
    decreases |s|
  {
    if s == [] || t == [] {
    } else if s[0] < t[0] {
      assert FirstDifferenceBelow(s, t, 0);
    } else if s[0] > t[0] {
      forall k | FirstDifferenceBelow(s, t, k)
        ensures k > 0
      {
      }
      forall k | 0 < k <= |s| && k <= |t|
        ensures s[..k] != t[..k]
      {
        assert s[..k][0] == s[0] && t[..k][0] == t[0];
      }
    } else {
      TextLeIsLexicographic(s[1..], t[1..]);
      assert s == [s[0]] + s[1..] && t == [t[0]] + t[1..];
      if s <= t {
        assert s[1..] <= t[1..];
      }
      if s[1..] <= t[1..] {
        assert s <= t;
      }
      if k :| FirstDifferenceBelow(s, t, k) {
        assert k > 0;
        assert s[1..][..k - 1] == s[..k][1..] && t[1..][..k - 1] == t[..k][1..];
        assert FirstDifferenceBelow(s[1..], t[1..], k - 1);
      }
      if k :| FirstDifferenceBelow(s[1..], t[1..], k) {
        assert s[..k + 1] == [s[0]] + s[1..][..k] && t[..k + 1] == [t[0]] + t[1..][..k];
        assert FirstDifferenceBelow(s, t, k + 1);
      }
    }
  }

  lemma {:induction false} TextLeTotal(s: string, t: string)
    ensures TextLe(s, t) || TextLe(t, s)
    decreases |s|
  {
    if s != [] && t != [] && s[0] == t[0] {
      TextLeTotal(s[1..], t[1..]);
    }
  }

  lemma {:induction false} TextLeTransitive(s: string, t: string, u: string)
    requires TextLe(s, t) && TextLe(t, u)
    ensures TextLe(s, u)
    decreases |s|
  {
    if s != [] && s[0] == t[0] && t[0] == u[0] {
      TextLeTransitive(s[1..], t[1..], u[1..]);
    }
  }

  lemma {:induction false} TextLeAntisymmetric(s: string, t: string)
    requires TextLe(s, t) && TextLe(t, s)
    ensures s == t
    decreases |s|
  {
    if s != [] {
      TextLeAntisymmetric(s[1..], t[1..]);
      assert s == [s[0]] + s[1..] && t == [t[0]] + t[1..];
    }
  }

  /** Keys of one property are all Text or all Number; the mixed cases never arise but keep the order total. */
  predicate KeyLe(a: Key, b: Key) {
    match (a, b)
    case (Number(x), Number(y)) => x <= y
    case (Text(x), Text(y)) => TextLe(x, y)
    case (Number(_), Text(_)) => true
    case (Text(_), Number(_)) => false
  }

  lemma KeyLeTotal(a: Key, b: Key)
    ensures KeyLe(a, b) || KeyLe(b, a)
  {
    if a.Text? && b.Text? {
      TextLeTotal(a.s, b.s);
    }
  }

  lemma KeyLeTransitive(a: Key, b: Key, c: Key)
    requires KeyLe(a, b) && KeyLe(b, c)
    ensures KeyLe(a, c)
  {
    if a.Text? && b.Text? && c.Text? {
      TextLeTransitive(a.s, b.s, c.s);
    }
  }

  /** `a` may come before `b` in a listing ordered in direction `dir`. */
  predicate Precedes(dir: Direction, a: Key, b: Key) {
    if dir == Ascending then KeyLe(a, b) else KeyLe(b, a)
  }

  lemma PrecedesTotal(dir: Direction, a: Key, b: Key)
    ensures Precedes(dir, a, b) || Precedes(dir, b, a)
  {
    KeyLeTotal(a, b);
  }

  lemma PrecedesTransitive(dir: Direction, a: Key, b: Key, c: Key)
    requires Precedes(dir, a, b) && Precedes(dir, b, c)
    ensures Precedes(dir, a, c)
  {
    if dir == Ascending {
      KeyLeTransitive(a, b, c);
    } else {
      KeyLeTransitive(c, b, a);
    }
  }

  /** Every record precedes every later record under property `p` in direction `dir`. */
  predicate OrderedBy(p: Property, dir: Direction, s: seq<Dog>) {
    forall i, j :: 0 <= i < j < |s| ==> Precedes(dir, KeyOf(p, s[i]), KeyOf(p, s[j]))
  }

  /** The same, read off the DTOs of a listing. */
  predicate DtosOrderedBy(p: Property, dir: Direction, s: seq<DogDto>) {
    forall i, j :: 0 <= i < j < |s| ==> Precedes(dir, DtoKeyOf(p, s[i]), DtoKeyOf(p, s[j]))
  }

  lemma OrderedByProjects(p: Property, dir: Direction, s: seq<Dog>)
    requires OrderedBy(p, dir, s)
    ensures DtosOrderedBy(p, dir, ToDtos(s))
  {
  }

  lemma OrderedBySlice(p: Property, dir: Direction, s: seq<Dog>, i: nat, j: nat)
    requires OrderedBy(p, dir, s) && i <= j <= |s|
    ensures OrderedBy(p, dir, s[i..j])
  {
  }

  lemma PrependOrdered(p: Property, dir: Direction, y: Dog, t: seq<Dog>)
    requires OrderedBy(p, dir, t)
    requires forall z :: z in t ==> Precedes(dir, KeyOf(p, y), KeyOf(p, z))
    ensures OrderedBy(p, dir, [y] + t)
  {
    var r := [y] + t;
    forall i, j | 0 <= i < j < |r|
      ensures Precedes(dir, KeyOf(p, r[i]), KeyOf(p, r[j]))
    {
      if i == 0 {
        assert r[j] == t[j - 1] && r[j] in t;
      } else {
        assert r[i] == t[i - 1] && r[j] == t[j - 1];
      }
    }
  }

  /** `x` goes in front when it precedes the first record. */
  lemma InsertFront(p: Property, dir: Direction, x: Dog, s: seq<Dog>)
    requires OrderedBy(p, dir, s) && s != [] && Precedes(dir, KeyOf(p, x), KeyOf(p, s[0]))
    ensures OrderedBy(p, dir, [x] + s)
  {
    forall z | z in s
      ensures Precedes(dir, KeyOf(p, x), KeyOf(p, z))
    {
      var j :| 0 <= j < |s| && s[j] == z;
      if j > 0 {
        PrecedesTransitive(dir, KeyOf(p, x), KeyOf(p, s[0]), KeyOf(p, z));
      }
    }
    PrependOrdered(p, dir, x, s);
  }

  /** Otherwise the first record stays in front of `t`, the rest with `x` inserted. */
  lemma InsertBehind(p: Property, dir: Direction, x: Dog, s: seq<Dog>, t: seq<Dog>)
    requires OrderedBy(p, dir, s) && s != [] && !Precedes(dir, KeyOf(p, x), KeyOf(p, s[0]))
    requires OrderedBy(p, dir, t) && multiset(t) == multiset(s[1..]) + multiset{x}
    ensures OrderedBy(p, dir, [s[0]] + t)
    ensures multiset([s[0]] + t) == multiset(s) + multiset{x}
  {
    forall z | z in t
      ensures Precedes(dir, KeyOf(p, s[0]), KeyOf(p, z))
    {
      assert z in multiset(t);
      if z == x {
        PrecedesTotal(dir, KeyOf(p, x), KeyOf(p, s[0]));
      } else {
        assert z in multiset(s[1..]);
        var j :| 0 <= j < |s[1..]| && s[1..][j] == z;
        assert s[j + 1] == z;
      }
    }
    PrependOrdered(p, dir, s[0], t);
    assert s == [s[0]] + s[1..];
  }

  /** Inserts `x` into an ordered sequence in front of the first record it precedes. */
  function Insert(p: Property, dir: Direction, x: Dog, s: seq<Dog>): (r: seq<Dog>)
    requires OrderedBy(p, dir, s)
    ensures OrderedBy(p, dir, r)
    ensures multiset(r) == multiset(s) + multiset{x}
    decreases |s|
  {
    if s == [] then
      [x]
    else if Precedes(dir, KeyOf(p, x), KeyOf(p, s[0])) then
      InsertFront(p, dir, x, s);
      assert s == [s[0]] + s[1..];
      [x] + s
    else
      var t := Insert(p, dir, x, s[1..]);
      InsertBehind(p, dir, x, s, t);
      [s[0]] + t
  }

  /**
   * The records of `s` ordered by property `p` in direction `dir`
   * (`OrderBy` when Ascending, `OrderByDescending` when Descending).
   */
  function OrderBy(s: seq<Dog>, p: Property, dir: Direction): (r: seq<Dog>)
    ensures OrderedBy(p, dir, r)
    ensures multiset(r) == multiset(s)
    ensures |r| == |s|
    decreases |s|
  {
    if s == [] then
      []
    else
      assert s == [s[0]] + s[1..];
      Insert(p, dir, s[0], OrderBy(s[1..], p, dir))
  }
}
