/**
 Ordering and keyset paging. A task's key is its time and numeric id; pages are
 read from the sorted matching keys after a cursor, and the store may change
 between two pages.
 */
module Keysets {
  import opened TaskStates

  datatype Key = Key(at: nat, id: TaskId)

  predicate Less(a: Key, b: Key) {
    a.at < b.at || (a.at == b.at && a.id < b.id)
  }

  predicate After(cursor: Option<Key>, k: Key) {
    cursor.Some? ==> Less(cursor.value, k)
  }

  predicate StrictlySorted(q: seq<Key>) {
    forall i, j :: 0 <= i < j < |q| ==> Less(q[i], q[j])
  }

  // ---- sorting ----

  predicate IsLeast(s: set<Key>, k: Key) {
    k in s && forall j :: j in s ==> j == k || Less(k, j)
  }

  lemma {:induction false} LeastExists(s: set<Key>)
    requires s != {}
    ensures exists k :: IsLeast(s, k)
  {
    var k :| k in s;
    if s != {k} {
      LeastExists(s - {k});
      var m :| IsLeast(s - {k}, m);
      var least := if Less(k, m) then k else m;
      forall j | j in s ensures j == least || Less(least, j) {
        assert j == k || j in s - {k};
      }
      assert IsLeast(s, least);
    } else {
      assert IsLeast(s, k);
    }
  }

  function Least(s: set<Key>): (k: Key)
    requires s != {}
    ensures IsLeast(s, k)
  {
    LeastExists(s);
    var k :| IsLeast(s, k);
    k
  }

  function SortKeys(s: set<Key>): (q: seq<Key>)
    ensures StrictlySorted(q)
    ensures |q| == |s|
    ensures forall k :: k in q <==> k in s
  {
    if s == {} then [] else [Least(s)] + SortKeys(s - {Least(s)})
  }

  /** The largest key of a nonempty set: the last one in order. */
  function Greatest(s: set<Key>): (k: Key)
    requires s != {}
    ensures k in s && forall j :: j in s ==> j == k || Less(j, k)
  {
    var q := SortKeys(s);
    assert q[|q| - 1] in q;
    q[|q| - 1]
  }

  /** At most the first `count` keys. */
  function TakeKeys(keys: seq<Key>, count: nat): (r: seq<Key>)
    ensures r <= keys && (forall k :: k in r ==> k in keys)
    ensures |r| == if |keys| <= count then |keys| else count
  {
    if |keys| <= count then keys else keys[..count]
  }

  function KeyIds(keys: seq<Key>): set<TaskId> {
    set k | k in keys :: k.id
  }

  lemma KeyIdsSnoc(keys: seq<Key>, i: nat)
    requires i < |keys|
    ensures KeyIds(keys[..i + 1]) == KeyIds(keys[..i]) + {keys[i].id}
  {
    assert keys[..i + 1] == keys[..i] + [keys[i]];
  }

  /** A strictly sorted sequence is determined by its elements. */
  lemma {:induction false} SortedUnique(a: seq<Key>, b: seq<Key>)
    requires StrictlySorted(a) && StrictlySorted(b)
    requires forall k :: k in a <==> k in b
    ensures a == b
  {
    assert |a| > 0 ==> a[0] in a;
    assert |b| > 0 ==> b[0] in b;
    if a != [] && b != [] {
      assert a[0] in b && b[0] in a;
      assert a[0] == b[0];
      forall k ensures k in a[1..] <==> k in b[1..] {
        assert k in a <==> k == a[0] || k in a[1..];
        assert k in b <==> k == b[0] || k in b[1..];
      }
      SortedUnique(a[1..], b[1..]);
    }
  }

  lemma SortedConcat(a: seq<Key>, b: seq<Key>)
    requires StrictlySorted(a) && StrictlySorted(b)
    requires forall x, y :: x in a && y in b ==> Less(x, y)
    ensures StrictlySorted(a + b)
  {
    forall i, j | 0 <= i < j < |a + b| ensures Less((a + b)[i], (a + b)[j]) {
      if i < |a| <= j {
        assert a[i] in a && b[j - |a|] in b;
      }
    }
  }

  /** If everything in `low` precedes everything in `high`, sorting concatenates. */
  lemma SortSplits(low: set<Key>, high: set<Key>)
    requires forall a, b :: a in low && b in high ==> Less(a, b)
    ensures SortKeys(low + high) == SortKeys(low) + SortKeys(high)
  {
    var a, b := SortKeys(low), SortKeys(high);
    SortedConcat(a, b);
    SortedUnique(SortKeys(low + high), a + b);
  }

  // ---- one page ----

  datatype Page = Page(keys: seq<Key>, next: Option<Key>)

  function Remaining(matching: set<Key>, after: Option<Key>): set<Key> {
    set k | k in matching && After(after, k)
  }

  /** Truncates a sorted listing to one page. */
  function PageFrom(sorted: seq<Key>, limit: nat): Page
    requires limit >= 1
  {
    if |sorted| > limit then Page(sorted[..limit], Some(sorted[limit - 1])) else Page(sorted, None)
  }

  /** The first `limit` keys after the cursor; a continuation exactly when more remain. */
  function PageOf(matching: set<Key>, after: Option<Key>, limit: nat): Page
    requires limit >= 1
  {
    PageFrom(SortKeys(Remaining(matching, after)), limit)
  }

  lemma PageFromSplits(sorted: seq<Key>, limit: nat)
    requires limit >= 1 && StrictlySorted(sorted)
    ensures var p := PageFrom(sorted, limit);
      && StrictlySorted(p.keys)
      && |p.keys| <= limit
      && (forall k :: k in p.keys ==> k in sorted)
      && (p.next.None? ==> p.keys == sorted)
      && (p.next.Some? ==>
            && |p.keys| == limit
            && p.next.value in p.keys
            && (forall k :: k in p.keys ==> k == p.next.value || Less(k, p.next.value))
            && (forall k :: k in sorted ==> k in p.keys || Less(p.next.value, k)))
  {
    var p := PageFrom(sorted, limit);
    if p.next.Some? {
      assert p.keys[limit - 1] == sorted[limit - 1];
      forall k | k in sorted ensures k in p.keys || Less(p.next.value, k) {
        var i :| 0 <= i < |sorted| && sorted[i] == k;
        assert i < limit ==> p.keys[i] == k;
      }
    }
  }

  /** A page splits the remaining keys: all of its keys precede all the others, which come after its cursor. */
  lemma PageSplits(matching: set<Key>, after: Option<Key>, limit: nat)
    requires limit >= 1
    ensures var p := PageOf(matching, after, limit);
      && StrictlySorted(p.keys)
      && |p.keys| <= limit
      && (forall k :: k in p.keys ==> k in Remaining(matching, after))
      && (p.next.None? ==> forall k :: k in Remaining(matching, after) ==> k in p.keys)
      && (p.next.Some? ==>
            && |p.keys| == limit
            && p.next.value in p.keys
            && (forall k :: k in p.keys ==> k == p.next.value || Less(k, p.next.value))
            && (forall k :: k in Remaining(matching, after) ==> k in p.keys || Less(p.next.value, k))
            && Remaining(matching, p.next) < Remaining(matching, after))
  {
    var p := PageOf(matching, after, limit);
    PageFromSplits(SortKeys(Remaining(matching, after)), limit);
    if p.next.Some? {
      assert p.next.value in Remaining(matching, after) && p.next.value !in Remaining(matching, p.next);
    }
  }

  // ---- following cursors over a changing store ----

  /** Keys returned by following cursors; page `i` is read when `snaps[i]` is what matches. */
  function Follow(snaps: seq<set<Key>>, after: Option<Key>, limit: nat): seq<Key>
    requires limit >= 1
  {
    if snaps == [] then []
    else
      var p := PageOf(snaps[0], after, limit);
      if p.next.None? then p.keys else p.keys + Follow(snaps[1..], p.next, limit)
  }

  /** The listing reached a page without continuation. */
  predicate Completes(snaps: seq<set<Key>>, after: Option<Key>, limit: nat)
    requires limit >= 1
  {
    snaps != []
    && (var p := PageOf(snaps[0], after, limit);
        p.next.None? || Completes(snaps[1..], p.next, limit))
  }

  ghost predicate MatchedOnce(snaps: seq<set<Key>>, k: Key) {
    exists i :: 0 <= i < |snaps| && k in snaps[i]
  }

  ghost predicate MatchedThroughout(snaps: seq<set<Key>>, k: Key) {
    forall i :: 0 <= i < |snaps| ==> k in snaps[i]
  }

  lemma {:induction false} FollowSorted(snaps: seq<set<Key>>, after: Option<Key>, limit: nat)
    requires limit >= 1
    ensures StrictlySorted(Follow(snaps, after, limit))
    ensures forall k :: k in Follow(snaps, after, limit) ==> After(after, k) && MatchedOnce(snaps, k)
    decreases |snaps|
  {
    if snaps != [] {
      var p := PageOf(snaps[0], after, limit);
      PageSplits(snaps[0], after, limit);
      assert forall k :: k in snaps[0] ==> MatchedOnce(snaps, k);
      if p.next.Some? {
        var rest := snaps[1..];
        FollowSorted(rest, p.next, limit);
        forall k | MatchedOnce(rest, k) ensures MatchedOnce(snaps, k) {
          var i :| 0 <= i < |rest| && k in rest[i];
          assert k in snaps[i + 1];
        }
        SortedConcat(p.keys, Follow(rest, p.next, limit));
      }
    }
  }

  lemma {:induction false} FollowComplete(snaps: seq<set<Key>>, after: Option<Key>, limit: nat, k: Key)
    requires limit >= 1 && Completes(snaps, after, limit) && After(after, k) && MatchedThroughout(snaps, k)
    ensures k in Follow(snaps, after, limit)
    decreases |snaps|
  {
    var p := PageOf(snaps[0], after, limit);
    PageSplits(snaps[0], after, limit);
    assert k in Remaining(snaps[0], after);
    if p.next.Some? && k !in p.keys {
      FollowComplete(snaps[1..], p.next, limit, k);
    }
  }

  /**
   Whatever is accepted, changed or pruned between pages: keys come back strictly
   increasing (so never twice), each matched when its page was read, and a
   completed listing returns every key that matched throughout.
   */
  lemma PagingUnderChange(snaps: seq<set<Key>>, after: Option<Key>, limit: nat)
    requires limit >= 1
    ensures var q := Follow(snaps, after, limit);
      && StrictlySorted(q)
      && (forall k :: k in q ==> After(after, k) && MatchedOnce(snaps, k))
      && (Completes(snaps, after, limit) ==>
            forall k :: After(after, k) && MatchedThroughout(snaps, k) ==> k in q)
  {
    FollowSorted(snaps, after, limit);
    forall k | Completes(snaps, after, limit) && After(after, k) && MatchedThroughout(snaps, k)
      ensures k in Follow(snaps, after, limit)
    {
      FollowComplete(snaps, after, limit, k);
    }
  }

  /** On a store that does not change, the pages concatenate to the whole sorted listing. */
  lemma {:induction false} FrozenPaging(matching: set<Key>, after: Option<Key>, limit: nat, snaps: seq<set<Key>>)
    requires limit >= 1
    requires forall i :: 0 <= i < |snaps| ==> snaps[i] == matching
    requires |snaps| > |Remaining(matching, after)|
    ensures Completes(snaps, after, limit)
    ensures Follow(snaps, after, limit) == SortKeys(Remaining(matching, after))
    decreases |snaps|
  {
    var p := PageOf(matching, after, limit);
    PageSplits(matching, after, limit);
    if p.next.Some? {
      SubsetIsSmaller(Remaining(matching, p.next), Remaining(matching, after));
      FrozenPaging(matching, p.next, limit, snaps[1..]);
    }
    PagingUnderChange(snaps, after, limit);
    SortedUnique(Follow(snaps, after, limit), SortKeys(Remaining(matching, after)));
  }

  lemma SubsetIsSmaller<T>(a: set<T>, b: set<T>)
    requires a < b
    ensures |a| < |b|
  {
    assert |b| == |a| + |b - a| by { assert b == a + (b - a); }
  }
}
