/**
 * The inbox list: `emails` is sorted in place newest first, collapsed by id
 * through a `Map` for display, and a click marks records read.
 */
module EmailList {
  import opened Wrappers
  import opened Text
  import opened EmailPage

  // ---------------------------------------------------------------------------
  // Stable sort by timestamp, newest first

  /**
   * Inserts `x` into a newest-first list after every entry at least as new,
   * which is where a stable sort leaves it.
   */
  function Insert(sorted: seq<Email>, x: Email): (r: seq<Email>)
    ensures |r| == |sorted| + 1
  {
    if sorted == [] then [x]
    else if sorted[|sorted| - 1].timestamp < x.timestamp then Insert(sorted[..|sorted| - 1], x) + [sorted[|sorted| - 1]]
    else sorted + [x]
  }

  function Min(a: int, b: int): int {
    if a < b then a else b
  }

  /** `emails.sort((a, b) => (b.timestamp || 0) - (a.timestamp || 0))`. */
  function SortNewestFirst(s: seq<Email>): (r: seq<Email>)
    ensures |r| == |s|
  {
    if s == [] then [] else Insert(SortNewestFirst(s[..|s| - 1]), s[|s| - 1])
  }

  predicate NewestFirst(s: seq<Email>) {
    forall i, j :: 0 <= i < j < |s| ==> s[i].timestamp >= s[j].timestamp
  }

  /** The entries with timestamp `t`, in order. */
  function WithTimestamp(s: seq<Email>, t: int): seq<Email> {
    if s == [] then []
    else WithTimestamp(s[..|s| - 1], t) + (if s[|s| - 1].timestamp == t then [s[|s| - 1]] else [])
  }

  lemma {:induction false} InsertIsPermutation(sorted: seq<Email>, x: Email)
    ensures multiset(Insert(sorted, x)) == multiset(sorted) + multiset{x}
    decreases |sorted|
  {
    if sorted != [] {
      var n := |sorted| - 1;
      assert sorted == sorted[..n] + [sorted[n]];
      if sorted[n].timestamp < x.timestamp {
        InsertIsPermutation(sorted[..n], x);
      }
    }
  }

  /** Insertion keeps a newest-first list newest first, and keeps every entry at least as new as a common bound `b`. */
  lemma {:induction false} InsertKeepsOrder(sorted: seq<Email>, x: Email, b: int)
    requires NewestFirst(sorted)
    requires forall k :: 0 <= k < |sorted| ==> sorted[k].timestamp >= b
    requires x.timestamp >= b
    ensures NewestFirst(Insert(sorted, x))
    ensures forall k :: 0 <= k < |Insert(sorted, x)| ==> Insert(sorted, x)[k].timestamp >= b
    decreases |sorted|
  {
    if sorted != [] {
      var n := |sorted| - 1;
      var last := sorted[n];
      if last.timestamp < x.timestamp {
        InsertKeepsOrder(sorted[..n], x, last.timestamp);
        assert Insert(sorted, x) == Insert(sorted[..n], x) + [last];
      }
    }
  }

  /** Entries after `x` in the insertion result are strictly older than `x`, so equal timestamps keep their order. */
  lemma {:induction false} InsertIsStable(sorted: seq<Email>, x: Email, t: int)
    ensures WithTimestamp(Insert(sorted, x), t) == WithTimestamp(sorted, t) + (if x.timestamp == t then [x] else [])
    decreases |sorted|
  {
    if sorted == [] {
      assert WithTimestamp([x], t) == WithTimestamp([], t) + (if x.timestamp == t then [x] else []);
    } else {
      var n := |sorted| - 1;
      var last := sorted[n];
      assert sorted[..n + 1] == sorted;
      if last.timestamp < x.timestamp {
        InsertIsStable(sorted[..n], x, t);
        var r := Insert(sorted[..n], x);
        assert (r + [last])[..|r|] == r;
        if x.timestamp == t {
          assert last.timestamp != t;
        }
      } else {
        assert (sorted + [x])[..|sorted|] == sorted;
      }
    }
  }

  /** The sort puts the list newest first. */
  lemma {:induction false} SortIsOrdered(s: seq<Email>)
    ensures NewestFirst(SortNewestFirst(s))
  {
    if s != [] {
      var n := |s| - 1;
      SortIsOrdered(s[..n]);
      var sorted := SortNewestFirst(s[..n]);
      var b := if sorted == [] then s[n].timestamp else Min(sorted[|sorted| - 1].timestamp, s[n].timestamp);
      InsertKeepsOrder(sorted, s[n], b);
    }
  }

  /** The sort keeps every entry: its result is a permutation of the input. */
  lemma {:induction false} SortIsPermutation(s: seq<Email>)
    ensures multiset(SortNewestFirst(s)) == multiset(s)
  {
    if s != [] {
      var n := |s| - 1;
      SortIsPermutation(s[..n]);
      InsertIsPermutation(SortNewestFirst(s[..n]), s[n]);
      assert s == s[..n] + [s[n]];
    }
  }

  /** The sort is stable: entries with equal timestamps keep their original order. */
  lemma {:induction false} SortIsStable(s: seq<Email>, t: int)
    ensures WithTimestamp(SortNewestFirst(s), t) == WithTimestamp(s, t)
  {
    if s != [] {
      var n := |s| - 1;
      SortIsStable(s[..n], t);
      InsertIsStable(SortNewestFirst(s[..n]), s[n], t);
    }
  }

  /** The in-place sort: insertion sort on the array, shifting newer entries left past older ones. */
  method SortByTimestamp(a: array<Email>)
    modifies a
    ensures a[..] == SortNewestFirst(old(a[..]))
  {
    ghost var input := a[..];
    var i := 0;
    while i < a.Length
      invariant 0 <= i <= a.Length
      invariant a[..i] == SortNewestFirst(input[..i])
      invariant a[i..] == input[i..]
    {
      assert input[..i + 1][..i] == input[..i];
      InsertNext(a, i);
      i := i + 1;
    }
    assert input[..a.Length] == input;
  }

  /** One pass of the insertion sort: moves `a[i]` into place within `a[..i + 1]`. */
  method InsertNext(a: array<Email>, i: nat)
    requires i < a.Length
    modifies a
    ensures a[..i + 1] == Insert(old(a[..i]), old(a[i]))
    ensures a[i + 1..] == old(a[i + 1..])
  {
    var x := a[i];
    ghost var sorted := a[..i];
    var j := i;
    while j > 0 && a[j - 1].timestamp < x.timestamp
      invariant 0 <= j <= i
      invariant forall k :: 0 <= k < j ==> a[k] == sorted[k]
      invariant forall k :: j < k <= i ==> a[k] == sorted[k - 1]
      invariant forall k :: i < k < a.Length ==> a[k] == old(a[k])
      invariant forall k :: j <= k < i ==> sorted[k].timestamp < x.timestamp
    {
      a[j] := a[j - 1];
      j := j - 1;
    }
    assert j == 0 || sorted[j - 1].timestamp >= x.timestamp;
    a[j] := x;
    InsertLandsAt(sorted, x, j);
    Assemble(a[..i + 1], sorted, x, j);
  }

  /** `x` lands right after the newest-first run of entries at least as new and before the strictly older tail. */
  lemma {:induction false} InsertLandsAt(sorted: seq<Email>, x: Email, j: nat)
    requires j <= |sorted| && (j == 0 || sorted[j - 1].timestamp >= x.timestamp)
    requires forall k :: j <= k < |sorted| ==> sorted[k].timestamp < x.timestamp
    ensures Insert(sorted, x) == sorted[..j] + [x] + sorted[j..]
    decreases |sorted|
  {
    if j < |sorted| {
      var n := |sorted| - 1;
      InsertLandsAt(sorted[..n], x, j);
      assert sorted[..n][..j] == sorted[..j];
      assert sorted[j..] == sorted[..n][j..] + [sorted[n]];
    } else {
      assert sorted[..j] == sorted;
    }
  }

  lemma Assemble(r: seq<Email>, sorted: seq<Email>, x: Email, j: nat)
    requires |r| == |sorted| + 1 && j <= |sorted|
    requires forall k :: 0 <= k < j ==> r[k] == sorted[k]
    requires r[j] == x
    requires forall k :: j < k < |r| ==> r[k] == sorted[k - 1]
    ensures r == sorted[..j] + [x] + sorted[j..]
  {
  }

  // ---------------------------------------------------------------------------
  // Collapse by id: Array.from(new Map(list.map(e => [e.id, e])).values())

  /** The position of the entry with `id`, if any. */
  function IndexOfId(m: seq<Email>, id: String): (k: Option<nat>)
    ensures k.Some? ==> k.value < |m| && m[k.value].id == id
    ensures k.None? ==> forall i :: 0 <= i < |m| ==> m[i].id != id
  {
    if m == [] then None
    else if m[|m| - 1].id == id then Some(|m| - 1)
    else IndexOfId(m[..|m| - 1], id)
  }

  /** `map.set(e.id, e)`: an existing key keeps its position and takes the new value; a new key goes last. */
  function MapSet(m: seq<Email>, e: Email): seq<Email> {
    match IndexOfId(m, e.id)
    case Some(k) => m[k := e]
    case None => m + [e]
  }

  function DedupeById(s: seq<Email>): seq<Email> {
    if s == [] then [] else MapSet(DedupeById(s[..|s| - 1]), s[|s| - 1])
  }

  predicate UniqueIds(m: seq<Email>) {
    forall i, j :: 0 <= i < j < |m| ==> m[i].id != m[j].id
  }

  /** No later entry of `s` has the id of `s[i]`. */
  predicate LastOfItsId(s: seq<Email>, i: int) {
    0 <= i < |s| && forall k :: i < k < |s| ==> s[k].id != s[i].id
  }

  function Ids(s: seq<Email>): set<String> {
    set e | e in s :: e.id
  }

  lemma IdsSnoc(s: seq<Email>, x: Email)
    ensures Ids(s + [x]) == Ids(s) + {x.id}
  {
    assert forall e :: e in s + [x] <==> e in s || e == x;
  }

  /** The displayed list has unique ids. */
  lemma {:induction false} DedupeIdsUnique(s: seq<Email>)
    ensures UniqueIds(DedupeById(s))
  {
    if s != [] {
      var n := |s| - 1;
      var x := s[n];
      var d := DedupeById(s[..n]);
      DedupeIdsUnique(s[..n]);
      match IndexOfId(d, x.id)
      case Some(k) =>
        var r := d[k := x];
        assert forall p :: 0 <= p < |r| ==> r[p].id == d[p].id;
      case None =>
    }
  }

  /** The displayed list has exactly the ids of the input. */
  lemma {:induction false} DedupeKeepsIds(s: seq<Email>)
    ensures Ids(DedupeById(s)) == Ids(s)
  {
    if s != [] {
      var n := |s| - 1;
      var x := s[n];
      var d := DedupeById(s[..n]);
      DedupeKeepsIds(s[..n]);
      assert s == s[..n] + [x];
      IdsSnoc(s[..n], x);
      match IndexOfId(d, x.id)
      case Some(k) =>
        var r := d[k := x];
        forall id | id in Ids(d) ensures id in Ids(r) {
          var e :| e in d && e.id == id;
          var p :| 0 <= p < |d| && d[p] == e;
          assert r[p] in r;
        }
        forall id | id in Ids(r) ensures id in Ids(d) {
          var e :| e in r && e.id == id;
          var p :| 0 <= p < |r| && r[p] == e;
          assert d[p] in d;
        }
      case None =>
        IdsSnoc(d, x);
    }
  }

  /** For `s[n]` the last entry: an earlier entry is the last of its id in `s` when it is in `s[..n]` and its id differs from `s[n]`'s. */
  lemma LastOfItsIdSnoc(s: seq<Email>, i: nat)
    requires 0 <= i < |s| - 1
    ensures LastOfItsId(s, i) <==> LastOfItsId(s[..|s| - 1], i) && s[i].id != s[|s| - 1].id
  {
  }

  /** The displayed list holds exactly the entries that are the last of their id: for a repeated id the last entry wins. */
  lemma {:induction false} DedupeKeepsLastOfEachId(s: seq<Email>, e: Email)
    ensures e in DedupeById(s) <==> exists i :: LastOfItsId(s, i) && s[i] == e
  {
    if s != [] {
      var n := |s| - 1;
      var x := s[n];
      var d := DedupeById(s[..n]);
      DedupeKeepsLastOfEachId(s[..n], e);
      DedupeIdsUnique(s[..n]);
      var r := DedupeById(s);
      assert LastOfItsId(s, n);
      if e != x {
        assert e in r <==> e in d && e.id != x.id by {
          match IndexOfId(d, x.id)
          case Some(k) =>
            assert r == d[k := x];
            if e in r {
              var p :| 0 <= p < |r| && r[p] == e;
              assert p != k && d[p] == e;
              assert d[p].id != d[k].id by {
                if p < k { } else { }
              }
            }
            if e in d && e.id != x.id {
              var p :| 0 <= p < |d| && d[p] == e;
              assert r[p] == e;
            }
          case None =>
            assert r == d + [x];
        }
        if exists i :: LastOfItsId(s, i) && s[i] == e {
          var i :| LastOfItsId(s, i) && s[i] == e;
          LastOfItsIdSnoc(s, i);
          assert LastOfItsId(s[..n], i) && s[..n][i] == e;
        }
        if (exists i :: LastOfItsId(s[..n], i) && s[..n][i] == e) && e.id != x.id {
          var i :| LastOfItsId(s[..n], i) && s[..n][i] == e;
          LastOfItsIdSnoc(s, i);
        }
      } else {
        match IndexOfId(d, x.id)
        case Some(k) =>
          assert r[k] == e;
        case None =>
          assert r[|d|] == e;
      }
    }
  }

  /** The first position of an entry with `id`, or `|s|` when there is none. */
  function FirstIndexOfId(s: seq<Email>, id: String): (r: nat)
    ensures r <= |s|
    ensures r < |s| ==> s[r].id == id
    ensures forall k :: 0 <= k < r ==> s[k].id != id
  {
    if s == [] then 0
    else
      var f := FirstIndexOfId(s[..|s| - 1], id);
      if f < |s| - 1 then f else if s[|s| - 1].id == id then |s| - 1 else |s|
  }

  lemma FirstIndexOfPresentId(s: seq<Email>, id: String)
    requires id in Ids(s)
    ensures FirstIndexOfId(s, id) < |s|
  {
    var e :| e in s && e.id == id;
    var p :| 0 <= p < |s| && s[p] == e;
  }

  /** Each id keeps the position of its first entry: displayed ids follow first-appearance order. */
  lemma {:induction false} DedupeKeepsFirstOrder(s: seq<Email>, i: nat, j: nat)
    requires i < j < |DedupeById(s)|
    ensures FirstIndexOfId(s, DedupeById(s)[i].id) < FirstIndexOfId(s, DedupeById(s)[j].id) < |s|
  {
    var n := |s| - 1;
    var x := s[n];
    var d := DedupeById(s[..n]);
    var r := DedupeById(s);
    DedupeKeepsIds(s[..n]);
    DedupeKeepsIds(s);
    assert r[i] in r && r[j] in r;
    FirstIndexOfPresentId(s, r[i].id);
    FirstIndexOfPresentId(s, r[j].id);
    match IndexOfId(d, x.id)
    case Some(k) =>
      assert r == d[k := x];
      assert r[i].id == d[i].id && r[j].id == d[j].id;
      assert d[i] in d && d[j] in d;
      FirstIndexOfPresentId(s[..n], d[i].id);
      FirstIndexOfPresentId(s[..n], d[j].id);
      DedupeKeepsFirstOrder(s[..n], i, j);
    case None =>
      assert r == d + [x];
      assert d[i] in d;
      FirstIndexOfPresentId(s[..n], d[i].id);
      if j == |d| {
        assert x.id !in Ids(s[..n]);
        assert FirstIndexOfId(s[..n], x.id) == n;
      } else {
        assert d[j] in d;
        FirstIndexOfPresentId(s[..n], d[j].id);
        DedupeKeepsFirstOrder(s[..n], i, j);
      }
  }

  // ---------------------------------------------------------------------------
  // Marking read

  /** `emails.map(e => e.id === id ? { ...e, read: true } : e)`. */
  function MarkRead(s: seq<Email>, id: String): (r: seq<Email>)
    ensures |r| == |s|
    ensures forall i :: 0 <= i < |s| ==> r[i].read == (s[i].read || s[i].id == id)
    ensures forall i :: 0 <= i < |s| ==> r[i].(read := s[i].read) == s[i]
  {
    seq(|s|, i requires 0 <= i < |s| => if s[i].id == id then s[i].(read := true) else s[i])
  }

  // ---------------------------------------------------------------------------
  // The view state

  /** The inbox view's state: the `emails` array and the selected record. */
  class Inbox {
    var emails: array<Email>
    var selected: Option<Email>

    constructor ()
      ensures emails.Length == 0 && selected.None?
    {
      emails := new Email[0];
      selected := None;
    }

    /** `setEmails(list)`. */
    method SetEmails(list: seq<Email>)
      modifies this
      ensures fresh(emails) && emails[..] == list && selected == old(selected)
    {
      emails := new Email[|list|](i requires 0 <= i < |list| => list[i]);
    }

    /** `filteredEmails`: sorts the state array in place, then keeps one record per id. */
    method FilteredEmails() returns (shown: seq<Email>)
      modifies emails
      ensures emails[..] == SortNewestFirst(old(emails[..]))
      ensures shown == DedupeById(emails[..])
      ensures UniqueIds(shown)
    {
      SortByTimestamp(emails);
      shown := DedupeById(emails[..]);
      DedupeIdsUnique(emails[..]);
    }

    /** `handleEmailClick`: selects the record and replaces the list with one where that id is read. */
    method HandleEmailClick(email: Email)
      modifies this
      ensures selected == Some(email)
      ensures fresh(emails) && emails[..] == MarkRead(old(emails[..]), email.id)
    {
      selected := Some(email);
      var updated := MarkRead(emails[..], email.id);
      emails := new Email[|updated|](i requires 0 <= i < |updated| => updated[i]);
    }
  }
}
