/**
 * The JavaScript array edits the board code is built from, on values:
 * `splice` used to remove one element or to insert one, and `arrayMove`
 * from the sortable drag-and-drop package.
 */
module ArrayOps {
  /** `s.splice(i, 1)` for an index inside the array: what is left of `s`. */
  function RemoveAt<T>(s: seq<T>, i: nat): (r: seq<T>)
    requires i < |s|
    ensures |r| == |s| - 1
    ensures forall k :: 0 <= k < i ==> r[k] == s[k]
    ensures forall k :: i <= k < |r| ==> r[k] == s[k + 1]
    ensures multiset(r) + multiset{s[i]} == multiset(s)
  {
    assert s == s[..i] + [s[i]] + s[i + 1..];
    s[..i] + s[i + 1..]
  }

  /** `s.splice(i, 0, x)` for an index no larger than the length: `x` now sits at `i`. */
  function InsertAt<T>(s: seq<T>, i: nat, x: T): (r: seq<T>)
    requires i <= |s|
    ensures |r| == |s| + 1 && r[i] == x
    ensures forall k :: 0 <= k < i ==> r[k] == s[k]
    ensures forall k :: i < k < |r| ==> r[k] == s[k - 1]
    ensures multiset(r) == multiset(s) + multiset{x}
  {
    assert s == s[..i] + s[i..];
    s[..i] + [x] + s[i..]
  }

  /**
   * `arrayMove(s, from, to)`: take the element at `from` out and put it back
   * at `to`, as the sortable package defines it (remove, then insert into
   * what is left).
   */
  function ArrayMove<T>(s: seq<T>, from: nat, to: nat): (r: seq<T>)
    requires from < |s| && to < |s|
    ensures |r| == |s| && r[to] == s[from]
    ensures multiset(r) == multiset(s)
    ensures RemoveAt(r, to) == RemoveAt(s, from)
  {
    var r := InsertAt(RemoveAt(s, from), to, s[from]);
    RemoveInsertInverse(RemoveAt(s, from), to, s[from]);
    r
  }

  /** Removing what was just inserted gives back the array. */
  lemma RemoveInsertInverse<T>(s: seq<T>, i: nat, x: T)
    requires i <= |s|
    ensures RemoveAt(InsertAt(s, i, x), i) == s
  {
    var t := RemoveAt(InsertAt(s, i, x), i);
    assert |t| == |s|;
    forall k | 0 <= k < |s| ensures t[k] == s[k] {
    }
  }

  /** Inserting back what was just removed gives back the array. */
  lemma InsertRemoveInverse<T>(s: seq<T>, i: nat)
    requires i < |s|
    ensures InsertAt(RemoveAt(s, i), i, s[i]) == s
  {
    var t := InsertAt(RemoveAt(s, i), i, s[i]);
    assert |t| == |s|;
    forall k | 0 <= k < |s| ensures t[k] == s[k] {
    }
  }
}
