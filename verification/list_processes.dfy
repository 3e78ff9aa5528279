/** Process listing: a stable sort by one of three keys (resident memory,
    lower-cased name, pid), ascending or descending, followed by keeping
    the first `topN` entries with Python's slice semantics. Descending
    order compares keys the other way round and keeps equal keys in input
    order, as Python's `sorted(..., reverse=True)` does; it is not the
    ascending order reversed. */
module ListProcesses {
  import opened Entities
  import opened Text

  /** A sort key: a number (resident bytes or pid) or a string (a name). */
  datatype Key = Number(n: int) | Word(s: string)

  /** Strict order on keys: numbers by `<`, strings by code point. A list is
      only ever sorted by keys of one kind; numbers before strings makes the
      order total. */
  predicate KeyLess(a: Key, b: Key) {
    match (a, b)
    case (Number(x), Number(y)) => x < y
    case (Word(s), Word(t)) => TextLess(s, t)
    case (Number(_), Word(_)) => true
    case (Word(_), Number(_)) => false
  }

  lemma KeyLessIrreflexive(a: Key)
    ensures !KeyLess(a, a)
  {
    if a.Word? {
      TextLessIrreflexive(a.s);
    }
  }

  lemma KeyLessTransitive(a: Key, b: Key, c: Key)
    requires KeyLess(a, b) && KeyLess(b, c)
    ensures KeyLess(a, c)
  {
    if a.Word? && b.Word? && c.Word? {
      TextLessTransitive(a.s, b.s, c.s);
    }
  }

  lemma KeyLessTotal(a: Key, b: Key)
    requires a != b
    ensures KeyLess(a, b) || KeyLess(b, a)
  {
    if a.Word? && b.Word? {
      TextLessTotal(a.s, b.s);
    }
  }

  /** The key function `sorted` is given: "mem" selects the resident size
      (absent counted as zero), "name" the lower-cased name, and any other
      value the pid. */
  function SortKey(sortBy: string): Process -> Key {
    if sortBy == "mem" then (p: Process) => Number(RssOrZero(p))
    else if sortBy == "name" then (p: Process) => Word(Lower(p.name))
    else (p: Process) => Number(p.pid)
  }

  /** `p` goes strictly before `q`: its key is smaller, or larger when
      `reverse` holds. */
  predicate Before(key: Process -> Key, reverse: bool, p: Process, q: Process) {
    if reverse then KeyLess(key(q), key(p)) else KeyLess(key(p), key(q))
  }

  lemma BeforeIrreflexive(key: Process -> Key, reverse: bool, p: Process, q: Process)
    requires key(p) == key(q)
    ensures !Before(key, reverse, p, q)
  {
    KeyLessIrreflexive(key(p));
  }

  lemma BeforeTransitive(key: Process -> Key, reverse: bool, p: Process, q: Process, r: Process)
    requires Before(key, reverse, p, q) && Before(key, reverse, q, r)
    ensures Before(key, reverse, p, r)
  {
    if reverse {
      KeyLessTransitive(key(r), key(q), key(p));
    } else {
      KeyLessTransitive(key(p), key(q), key(r));
    }
  }

  /** No element goes strictly before an element to its left. */
  predicate Sorted(key: Process -> Key, reverse: bool, s: seq<Process>) {
    forall i, j :: 0 <= i < j < |s| ==> !Before(key, reverse, s[j], s[i])
  }

  /** The elements of `s` whose key is `k`, in order. Stability means that
      sorting leaves this list unchanged for every key. */
  function WithKey(key: Process -> Key, s: seq<Process>, k: Key): seq<Process> {
    if s == [] then []
    else (if key(s[0]) == k then [s[0]] else []) + WithKey(key, s[1..], k)
  }

  lemma {:induction false} WithKeyAppend(key: Process -> Key, a: seq<Process>, b: seq<Process>, k: Key)
    ensures WithKey(key, a + b, k) == WithKey(key, a, k) + WithKey(key, b, k)
  {
    if a != [] {
      WithKeyAppend(key, a[1..], b, k);
      var ab := a + b;
      assert ab != [] && ab[0] == a[0] && ab[1..] == a[1..] + b;
      assert WithKey(key, ab, k) == (if key(a[0]) == k then [a[0]] else []) + WithKey(key, a[1..] + b, k);
    } else {
      assert a + b == b;
    }
  }

  lemma {:induction false} WithKeyNone(key: Process -> Key, s: seq<Process>, k: Key)
    requires forall i :: 0 <= i < |s| ==> key(s[i]) != k
    ensures WithKey(key, s, k) == []
  {
    if s != [] {
      WithKeyNone(key, s[1..], k);
    }
  }

  /** Inserts `x` after every element that does not go strictly after it:
      into a sorted list, `x` lands behind the elements with its key. */
  function Insert(key: Process -> Key, reverse: bool, x: Process, s: seq<Process>): (r: seq<Process>)
    ensures |r| == |s| + 1
  {
    if s == [] then [x]
    else if Before(key, reverse, x, s[0]) then [x] + s
    else [s[0]] + Insert(key, reverse, x, s[1..])
  }

  /** Inserting adds exactly `x`. */
  lemma {:induction false} InsertPermutes(key: Process -> Key, reverse: bool, x: Process, s: seq<Process>)
    ensures multiset(Insert(key, reverse, x, s)) == multiset(s) + multiset{x}
  {
    if s != [] && !Before(key, reverse, x, s[0]) {
      InsertPermutes(key, reverse, x, s[1..]);
      assert s == [s[0]] + s[1..];
    }
  }

  /** Inserting into a sorted list keeps it sorted. */
  lemma {:induction false} InsertSorted(key: Process -> Key, reverse: bool, x: Process, s: seq<Process>)
    requires Sorted(key, reverse, s)
    ensures Sorted(key, reverse, Insert(key, reverse, x, s))
  {
    if s == [] {
    } else if Before(key, reverse, x, s[0]) {
      FrontSorted(key, reverse, x, s);
    } else {
      SortedTail(key, reverse, s);
      InsertSorted(key, reverse, x, s[1..]);
      InsertPermutes(key, reverse, x, s[1..]);
      HeadSorted(key, reverse, s, x, Insert(key, reverse, x, s[1..]));
    }
  }

  /** An element that goes before the head of a sorted list can lead it. */
  lemma FrontSorted(key: Process -> Key, reverse: bool, x: Process, s: seq<Process>)
    requires Sorted(key, reverse, s)
    requires s != [] && Before(key, reverse, x, s[0])
    ensures Sorted(key, reverse, [x] + s)
  {
    var r := [x] + s;
    forall i, j | 0 <= i < j < |r|
      ensures !Before(key, reverse, r[j], r[i])
    {
      assert r[j] == s[j - 1];
      if i == 0 {
        if Before(key, reverse, r[j], x) {
          BeforeTransitive(key, reverse, r[j], x, s[0]);
          if j == 1 {
            BeforeIrreflexive(key, reverse, s[0], s[0]);
          }
          assert false;
        }
      } else {
        assert r[i] == s[i - 1];
      }
    }
  }

  /** The head of a sorted list can lead a sorted rearrangement of its tail
      with an element added that does not go before it. */
  lemma HeadSorted(key: Process -> Key, reverse: bool, s: seq<Process>, x: Process, rest: seq<Process>)
    requires Sorted(key, reverse, s) && s != []
    requires !Before(key, reverse, x, s[0])
    requires Sorted(key, reverse, rest)
    requires multiset(rest) == multiset(s[1..]) + multiset{x}
    ensures Sorted(key, reverse, [s[0]] + rest)
  {
    forall j | 0 <= j < |rest|
      ensures !Before(key, reverse, rest[j], s[0])
    {
      assert rest[j] in multiset(s[1..]) + multiset{x};
      if rest[j] != x {
        assert rest[j] in s[1..];
        var k :| 0 <= k < |s[1..]| && s[1..][k] == rest[j];
        assert s[k + 1] == rest[j];
      }
    }
    var r := [s[0]] + rest;
    forall i, j | 0 <= i < j < |r|
      ensures !Before(key, reverse, r[j], r[i])
    {
      assert r[j] == rest[j - 1];
      if i > 0 {
        assert r[i] == rest[i - 1];
      }
    }
  }

  /** When `x` goes before the head of a sorted list, no element of the
      list shares its key. */
  lemma FrontKeyUnique(key: Process -> Key, reverse: bool, x: Process, s: seq<Process>)
    requires Sorted(key, reverse, s)
    requires s != [] && Before(key, reverse, x, s[0])
    ensures WithKey(key, s, key(x)) == []
  {
    forall i | 0 <= i < |s|
      ensures key(s[i]) != key(x)
    {
      KeyLessIrreflexive(key(x));
      if i > 0 {
        assert !Before(key, reverse, s[i], s[0]);
      }
    }
    WithKeyNone(key, s, key(x));
  }

  lemma WithKeySingle(key: Process -> Key, x: Process, k: Key)
    ensures WithKey(key, [x], k) == if key(x) == k then [x] else []
  {
    assert [x][1..] == [];
  }

  /** Inserting into a sorted list puts `x` behind every element with its
      key and leaves the order of the others alone. */
  lemma {:induction false} InsertStable(key: Process -> Key, reverse: bool, x: Process, s: seq<Process>, k: Key)
    requires Sorted(key, reverse, s)
    ensures WithKey(key, Insert(key, reverse, x, s), k)
      == WithKey(key, s, k) + (if key(x) == k then [x] else [])
  {
    WithKeySingle(key, x, k);
    if s == [] {
      assert Insert(key, reverse, x, s) == [x];
    } else if Before(key, reverse, x, s[0]) {
      InsertStableFront(key, reverse, x, s, k);
    } else {
      SortedTail(key, reverse, s);
      InsertStable(key, reverse, x, s[1..], k);
      InsertStableBehind(key, reverse, x, s, k);
    }
  }

  lemma InsertStableFront(key: Process -> Key, reverse: bool, x: Process, s: seq<Process>, k: Key)
    requires Sorted(key, reverse, s)
    requires s != [] && Before(key, reverse, x, s[0])
    ensures WithKey(key, [x] + s, k) == WithKey(key, s, k) + (if key(x) == k then [x] else [])
  {
    WithKeySingle(key, x, k);
    WithKeyAppend(key, [x], s, k);
    if key(x) == k {
      FrontKeyUnique(key, reverse, x, s);
    }
  }

  lemma InsertStableBehind(key: Process -> Key, reverse: bool, x: Process, s: seq<Process>, k: Key)
    requires s != [] && !Before(key, reverse, x, s[0])
    requires WithKey(key, Insert(key, reverse, x, s[1..]), k)
      == WithKey(key, s[1..], k) + (if key(x) == k then [x] else [])
    ensures WithKey(key, Insert(key, reverse, x, s), k)
      == WithKey(key, s, k) + (if key(x) == k then [x] else [])
  {
    var rest := Insert(key, reverse, x, s[1..]);
    assert Insert(key, reverse, x, s) == [s[0]] + rest;
    WithKeyAppend(key, [s[0]], rest, k);
    WithKeyAppend(key, [s[0]], s[1..], k);
    assert s == [s[0]] + s[1..];
  }

  lemma SortedTail(key: Process -> Key, reverse: bool, s: seq<Process>)
    requires Sorted(key, reverse, s) && s != []
    ensures Sorted(key, reverse, s[1..])
  {
    forall i, j | 0 <= i < j < |s[1..]|
      ensures !Before(key, reverse, s[1..][j], s[1..][i])
    {
      assert s[1..][j] == s[j + 1] && s[1..][i] == s[i + 1];
    }
  }

  /** Stable insertion sort: each element in input order is inserted into
      the sorted prefix before it. */
  function Sort(key: Process -> Key, reverse: bool, xs: seq<Process>): (r: seq<Process>)
    ensures |r| == |xs|
    ensures Sorted(key, reverse, r)
  {
    if xs == [] then []
    else
      var init := xs[..|xs| - 1];
      InsertSorted(key, reverse, xs[|xs| - 1], Sort(key, reverse, init));
      Insert(key, reverse, xs[|xs| - 1], Sort(key, reverse, init))
  }

  /** Sorting rearranges the input: nothing is added, dropped or
      duplicated. */
  lemma {:induction false} SortPermutes(key: Process -> Key, reverse: bool, xs: seq<Process>)
    ensures multiset(Sort(key, reverse, xs)) == multiset(xs)
  {
    if xs != [] {
      var init := xs[..|xs| - 1];
      SortPermutes(key, reverse, init);
      InsertPermutes(key, reverse, xs[|xs| - 1], Sort(key, reverse, init));
      assert xs == init + [xs[|xs| - 1]];
    }
  }

  /** Records with equal keys keep their input order, in both directions. */
  lemma {:induction false} SortStable(key: Process -> Key, reverse: bool, xs: seq<Process>, k: Key)
    ensures WithKey(key, Sort(key, reverse, xs), k) == WithKey(key, xs, k)
  {
    if xs != [] {
      var init := xs[..|xs| - 1];
      var last := xs[|xs| - 1];
      SortStable(key, reverse, init, k);
      InsertStable(key, reverse, last, Sort(key, reverse, init), k);
      assert xs == init + [last];
      WithKeyAppend(key, init, [last], k);
    }
  }

  /** The number of entries `s[:n]` keeps of a list of length `len`: a
      negative `n` counts from the end. */
  function SliceLength(n: int, len: nat): nat {
    if n >= 0 then (if n < len then n else len)
    else if len + n < 0 then 0 else len + n
  }

  /** In a sorted list, nothing after position `n` goes strictly before
      anything up to it, and the prefix is part of the whole. */
  lemma PrefixComesFirst(key: Process -> Key, reverse: bool, s: seq<Process>, n: nat)
    requires Sorted(key, reverse, s) && n <= |s|
    ensures multiset(s[..n]) <= multiset(s)
    ensures forall x, y :: x in multiset(s) - multiset(s[..n]) && y in s[..n] ==> !Before(key, reverse, x, y)
  {
    assert s == s[..n] + s[n..];
    forall x, y | x in multiset(s) - multiset(s[..n]) && y in s[..n]
      ensures !Before(key, reverse, x, y)
    {
      assert x in s[n..];
      var j :| 0 <= j < |s[n..]| && s[n..][j] == x;
      var i :| 0 <= i < n && s[..n][i] == y;
      assert s[n + j] == x && s[i] == y;
    }
  }

  /** The use case: the list sorted by the chosen key, cut to its first
      `topN` entries; by default the ten largest by memory. The result is
      sorted, holds only input records, and no record left out goes
      strictly before a record kept. */
  function Execute(ps: seq<Process>, sortBy: string := "mem", reverse: bool := true, topN: int := 10): (r: seq<Process>)
    ensures 0 <= topN ==> |r| == if topN < |ps| then topN else |ps|
    ensures topN < 0 ==> |r| == if |ps| + topN < 0 then 0 else |ps| + topN
    ensures multiset(r) <= multiset(ps)
    ensures Sorted(SortKey(sortBy), reverse, r)
    ensures forall x, y :: x in multiset(ps) - multiset(r) && y in r ==> !Before(SortKey(sortBy), reverse, x, y)
  {
    var key := SortKey(sortBy);
    var sorted := Sort(key, reverse, ps);
    SortPermutes(key, reverse, ps);
    var n := SliceLength(topN, |sorted|);
    PrefixComesFirst(key, reverse, sorted, n);
    sorted[..n]
  }

  /** Stability of the listing, in both directions: for every key, the
      records kept with that key are the first ones of the input with that
      key, in input order. */
  lemma ExecuteStable(ps: seq<Process>, sortBy: string, reverse: bool, topN: int, k: Key)
    ensures var r := Execute(ps, sortBy, reverse, topN);
      var kept := WithKey(SortKey(sortBy), r, k);
      var all := WithKey(SortKey(sortBy), ps, k);
      |kept| <= |all| && kept == all[..|kept|]
  {
    var key := SortKey(sortBy);
    var sorted := Sort(key, reverse, ps);
    var n := SliceLength(topN, |sorted|);
    assert sorted == sorted[..n] + sorted[n..];
    WithKeyAppend(key, sorted[..n], sorted[n..], k);
    SortStable(key, reverse, ps, k);
  }

  /** Sorted by memory, resident sizes (absent counted as zero) fall from
      left to right when `reverse` holds and rise otherwise. */
  lemma SortedByMemory(r: seq<Process>, reverse: bool)
    requires Sorted(SortKey("mem"), reverse, r)
    ensures reverse ==> forall i, j :: 0 <= i < j < |r| ==> RssOrZero(r[j]) <= RssOrZero(r[i])
    ensures !reverse ==> forall i, j :: 0 <= i < j < |r| ==> RssOrZero(r[i]) <= RssOrZero(r[j])
  {
    forall i, j | 0 <= i < j < |r|
      ensures if reverse then RssOrZero(r[j]) <= RssOrZero(r[i]) else RssOrZero(r[i]) <= RssOrZero(r[j])
    {
      assert !Before(SortKey("mem"), reverse, r[j], r[i]);
    }
  }

  /** Sorted by name, lower-cased names never rise from left to right when
      `reverse` holds and never fall otherwise, in code-point order. */
  lemma SortedByName(r: seq<Process>, reverse: bool)
    requires Sorted(SortKey("name"), reverse, r)
    ensures reverse ==> forall i, j :: 0 <= i < j < |r| ==> !TextLess(Lower(r[i].name), Lower(r[j].name))
    ensures !reverse ==> forall i, j :: 0 <= i < j < |r| ==> !TextLess(Lower(r[j].name), Lower(r[i].name))
  {
    forall i, j | 0 <= i < j < |r|
      ensures if reverse then !TextLess(Lower(r[i].name), Lower(r[j].name))
              else !TextLess(Lower(r[j].name), Lower(r[i].name))
    {
      assert !Before(SortKey("name"), reverse, r[j], r[i]);
    }
  }

  /** Any other criterion sorts by pid: pids fall from left to right when
      `reverse` holds and rise otherwise. */
  lemma SortedByPid(sortBy: string, r: seq<Process>, reverse: bool)
    requires sortBy != "mem" && sortBy != "name"
    requires Sorted(SortKey(sortBy), reverse, r)
    ensures reverse ==> forall i, j :: 0 <= i < j < |r| ==> r[j].pid <= r[i].pid
    ensures !reverse ==> forall i, j :: 0 <= i < j < |r| ==> r[i].pid <= r[j].pid
  {
    forall i, j | 0 <= i < j < |r|
      ensures if reverse then r[j].pid <= r[i].pid else r[i].pid <= r[j].pid
    {
      assert !Before(SortKey(sortBy), reverse, r[j], r[i]);
    }
  }

  /** An empty snapshot, or a limit of zero, lists nothing. */
  lemma EmptyListing(ps: seq<Process>, sortBy: string, reverse: bool, topN: int)
    ensures Execute([], sortBy, reverse, topN) == []
    ensures Execute(ps, sortBy, reverse, 0) == []
  {
  }

  /** Three processes of 100, 200 and 50 MB, top two by memory descending:
      the 200 MB process, then the 100 MB one. */
  lemma MemoryScenario()
    ensures var p1 := Process(1, "Process A", ProcessMemory(Some(104_857_600)));
      var p2 := Process(2, "Process B", ProcessMemory(Some(209_715_200)));
      var p3 := Process(3, "Process C", ProcessMemory(Some(52_428_800)));
      Execute([p1, p2, p3], "mem", topN := 2) == [p2, p1]
  {
    var p1 := Process(1, "Process A", ProcessMemory(Some(104_857_600)));
    var p2 := Process(2, "Process B", ProcessMemory(Some(209_715_200)));
    var p3 := Process(3, "Process C", ProcessMemory(Some(52_428_800)));
    MemorySorted(p1, p2, p3);
    assert [p2, p1, p3][..2] == [p2, p1];
  }

  /** Three processes with distinct resident sizes, sorted by memory
      descending: largest first. */
  lemma MemorySorted(p1: Process, p2: Process, p3: Process)
    requires RssOrZero(p3) < RssOrZero(p1) < RssOrZero(p2)
    ensures Sort(SortKey("mem"), true, [p1, p2, p3]) == [p2, p1, p3]
  {
    var key := SortKey("mem");
    assert [p1, p2, p3][..2] == [p1, p2];
    assert [p1, p2][..1] == [p1];
    assert Sort(key, true, [p1]) == [p1];
    assert Sort(key, true, [p1, p2]) == [p2, p1];
    assert [p2, p1][1..] == [p1];
    assert Insert(key, true, p3, [p1]) == [p1, p3];
    assert Insert(key, true, p3, [p2, p1]) == [p2, p1, p3];
    assert Sort(key, true, [p1, p2, p3]) == [p2, p1, p3];
  }

  /** Zebra, Apple and Banana by name descending: Zebra, Banana, Apple. */
  lemma NameScenario()
    ensures var z := Process(1, "Zebra", ProcessMemory(Some(100)));
      var a := Process(2, "Apple", ProcessMemory(Some(200)));
      var b := Process(3, "Banana", ProcessMemory(Some(50)));
      Execute([z, a, b], "name", topN := 3) == [z, b, a]
  {
    var z := Process(1, "Zebra", ProcessMemory(Some(100)));
    var a := Process(2, "Apple", ProcessMemory(Some(200)));
    var b := Process(3, "Banana", ProcessMemory(Some(50)));
    var key := SortKey("name");
    ScenarioNames();
    assert key(z) == Word("zebra") && key(a) == Word("apple") && key(b) == Word("banana");
    assert [z, a, b][..2] == [z, a];
    assert [z, a][..1] == [z];
    assert Sort(key, true, [z]) == [z];
    assert Insert(key, true, a, [z]) == [z, a];
    assert Sort(key, true, [z, a]) == [z, a];
    assert [z, a][1..] == [a];
    assert Insert(key, true, b, [a]) == [b, a];
    assert Sort(key, true, [z, a, b]) == [z, b, a];
  }

  /** The lower-cased names of the name scenario and how they compare. */
  lemma ScenarioNames()
    ensures Lower("Zebra") == "zebra" && Lower("Apple") == "apple" && Lower("Banana") == "banana"
    ensures TextLess("apple", "banana") && TextLess("banana", "zebra")
    ensures !TextLess("zebra", "apple") && !TextLess("zebra", "banana") && !TextLess("banana", "apple")
  {
    assert Lower("Zebra") == "zebra";
    assert Lower("Apple") == "apple";
    assert Lower("Banana") == "banana";
  }

  /** Pids 3, 1 and 2 by pid ascending: 1, 2, 3. */
  lemma PidScenario()
    ensures var p3 := Process(3, "Process C", ProcessMemory(Some(50)));
      var p1 := Process(1, "Process A", ProcessMemory(Some(100)));
      var p2 := Process(2, "Process B", ProcessMemory(Some(200)));
      Execute([p3, p1, p2], "pid", reverse := false, topN := 3) == [p1, p2, p3]
  {
    var p3 := Process(3, "Process C", ProcessMemory(Some(50)));
    var p1 := Process(1, "Process A", ProcessMemory(Some(100)));
    var p2 := Process(2, "Process B", ProcessMemory(Some(200)));
    var key := SortKey("pid");
    assert [p3, p1, p2][..2] == [p3, p1];
    assert [p3, p1][..1] == [p3];
    assert Sort(key, false, [p3]) == [p3];
    assert Sort(key, false, [p3, p1]) == [p1, p3];
    assert Insert(key, false, p2, [p3]) == [p2, p3];
    assert Sort(key, false, [p3, p1, p2]) == [p1, p2, p3];
  }

  /** Two processes with the same resident size stay in input order in
      both directions; descending is not ascending reversed. */
  lemma TieScenario()
    ensures var a := Process(1, "Process A", ProcessMemory(Some(64)));
      var b := Process(2, "Process B", ProcessMemory(Some(64)));
      Execute([a, b], "mem", true, 2) == [a, b] && Execute([a, b], "mem", false, 2) == [a, b]
  {
    var a := Process(1, "Process A", ProcessMemory(Some(64)));
    var b := Process(2, "Process B", ProcessMemory(Some(64)));
    var key := SortKey("mem");
    assert [a, b][..1] == [a];
    assert Sort(key, true, [a]) == [a];
    assert Sort(key, false, [a]) == [a];
    assert Insert(key, true, b, [a]) == [a, b];
    assert Insert(key, false, b, [a]) == [a, b];
    assert [a, b][..2] == [a, b];
  }
}
