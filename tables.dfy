/** Query semantics shared by the repositories: a table is a sequence of rows,
    and a Spring Data query becomes a function over it. */
module Tables {

  /** Outcome of a repository method that returns `Optional<T>`: no row, exactly
      one row (at `index`), or several rows, on which Spring Data throws
      `IncorrectResultSizeDataAccessException`. */
  datatype Lookup = Absent | At(index: nat) | Duplicate

  function FindUnique<T>(s: seq<T>, p: T -> bool): (r: Lookup)
    ensures r.Absent? <==> forall i | 0 <= i < |s| :: !p(s[i])
    ensures r.At? ==> r.index < |s| && p(s[r.index])
    ensures r.At? ==> forall j | 0 <= j < |s| && j != r.index :: !p(s[j])
    ensures r.Duplicate? ==> exists i, j | 0 <= i < j < |s| :: p(s[i]) && p(s[j])
  {
    if |s| == 0 then Absent
    else
      var rest := FindUnique(s[1..], p);
      if !p(s[0]) then
        match rest
        case Absent => Absent
        case At(k) => At(k + 1)
        case Duplicate =>
          var i, j :| 0 <= i < j < |s[1..]| && p(s[1..][i]) && p(s[1..][j]);
          assert p(s[i + 1]) && p(s[j + 1]);
          Duplicate
      else if rest.Absent? then At(0)
      else
        var k: nat :| k < |s[1..]| && p(s[1..][k]);
        assert p(s[0]) && p(s[k + 1]);
        Duplicate
  }

  /** Rows satisfying `p`, in table order (`findBy...` returning a `List`). */
  function Filter<T>(s: seq<T>, p: T -> bool): (r: seq<T>)
    ensures |r| <= |s|
    ensures forall x | x in r :: x in s && p(x)
    ensures forall x | x in s && p(x) :: x in r
  {
    if |s| == 0 then []
    else if p(s[0]) then [s[0]] + Filter(s[1..], p)
    else Filter(s[1..], p)
  }

  /** `SELECT COUNT(...) WHERE p`. */
  function Count<T>(s: seq<T>, p: T -> bool): (n: nat)
    ensures n <= |s|
    ensures n == 0 <==> forall i | 0 <= i < |s| :: !p(s[i])
  {
    if |s| == 0 then 0
    else (if p(s[0]) then 1 else 0) + Count(s[1..], p)
  }

  lemma {:induction false} CountIsFilterLength<T>(s: seq<T>, p: T -> bool)
    ensures Count(s, p) == |Filter(s, p)|
  {
    if |s| > 0 {
      CountIsFilterLength(s[1..], p);
    }
  }

  lemma {:induction false} CountAppend<T>(s: seq<T>, t: seq<T>, p: T -> bool)
    ensures Count(s + t, p) == Count(s, p) + Count(t, p)
  {
    if |s| > 0 {
      assert (s + t)[0] == s[0] && (s + t)[1..] == s[1..] + t;
      CountAppend(s[1..], t, p);
    } else {
      assert s + t == t;
    }
  }

  /** `DELETE ... WHERE p` keeps exactly the rows outside `p`. */
  function Delete<T>(s: seq<T>, p: T -> bool): (r: seq<T>)
    ensures |r| == |s| - Count(s, p)
    ensures forall x | x in r :: x in s && !p(x)
    ensures forall x | x in s && !p(x) :: x in r
  {
    if |s| == 0 then []
    else if p(s[0]) then Delete(s[1..], p)
    else [s[0]] + Delete(s[1..], p)
  }

  /** Deleting rows that `q` never selects leaves the count under `q` alone. */
  lemma {:induction false} CountDeleteDisjoint<T>(s: seq<T>, p: T -> bool, q: T -> bool)
    requires forall x: T :: q(x) ==> !p(x)
    ensures Count(Delete(s, p), q) == Count(s, q)
  {
    if |s| > 0 {
      CountDeleteDisjoint(s[1..], p, q);
      if !p(s[0]) {
        assert ([s[0]] + Delete(s[1..], p))[1..] == Delete(s[1..], p);
      }
    }
  }

  /** The table without the row at index `i` (`repository.delete(entity)`). */
  function RemoveAt<T>(s: seq<T>, i: nat): (r: seq<T>)
    requires i < |s|
    ensures |r| == |s| - 1
    ensures forall k | 0 <= k < i :: r[k] == s[k]
    ensures forall k | i <= k < |r| :: r[k] == s[k + 1]
  {
    s[..i] + s[i + 1..]
  }

  lemma {:induction false} CountRemoveAt<T>(s: seq<T>, i: nat, p: T -> bool)
    requires i < |s|
    ensures Count(RemoveAt(s, i), p) == Count(s, p) - (if p(s[i]) then 1 else 0)
  {
    if i > 0 {
      CountRemoveAt(s[1..], i - 1, p);
      assert RemoveAt(s, i) == [s[0]] + RemoveAt(s[1..], i - 1);
      assert RemoveAt(s, i)[1..] == RemoveAt(s[1..], i - 1);
    } else {
      assert RemoveAt(s, i) == s[1..];
    }
  }

  // ---------------------------------------------------------------------------
  // Primary keys

  lemma AppendAssoc<T>(a: seq<T>, b: seq<T>, c: seq<T>)
    ensures a + b + c == a + (b + c)
  {
  }

  /** No two rows share a key (a primary key column). */
  ghost predicate KeysDistinct<T>(s: seq<T>, key: T -> int)
  {
    forall i, j | 0 <= i < j < |s| :: key(s[i]) != key(s[j])
  }

  /** `findById(k)`. */
  function HasKey<T>(key: T -> int, k: int): T -> bool
  {
    (x: T) => key(x) == k
  }

  /** On a primary key, `findById` never finds two rows. */
  lemma KeyLookupUnique<T>(s: seq<T>, key: T -> int, k: int)
    requires KeysDistinct(s, key)
    ensures !FindUnique(s, HasKey(key, k)).Duplicate?
  {
  }

  /** Lookups only depend on which rows match. */
  lemma {:induction false} FindUniqueSameMatches<T>(s: seq<T>, t: seq<T>, p: T -> bool, q: T -> bool)
    requires |s| == |t|
    requires forall i | 0 <= i < |s| :: p(s[i]) == q(t[i])
    ensures FindUnique(s, p) == FindUnique(t, q)
  {
    if |s| > 0 {
      FindUniqueSameMatches(s[1..], t[1..], p, q);
    }
  }

  /** Replacing one row moves the count by what the old and new rows add. */
  lemma {:induction false} CountUpdate<T>(s: seq<T>, i: nat, x: T, p: T -> bool)
    requires i < |s|
    ensures Count(s[i := x], p) == Count(s, p) - (if p(s[i]) then 1 else 0) + (if p(x) then 1 else 0)
  {
    if i > 0 {
      assert s[i := x][1..] == s[1..][i - 1 := x];
      CountUpdate(s[1..], i - 1, x, p);
    }
  }
}
