/**
 UTF-16 text, the code-unit order Array.prototype.sort uses on keys, and key-sorted lists of entries.
 */
module SortedEntries {

  /** A UTF-16 code unit; a JavaScript string is a sequence of them. */
  type Unit = u: int | 0 <= u < 0x10000

  type Text = seq<Unit>

  datatype Entry<+V> = Entry(key: Text, val: V)

  predicate Less(a: Text, b: Text) {
    if b == [] then false
    else if a == [] then true
    else if a[0] != b[0] then a[0] < b[0]
    else Less(a[1..], b[1..])
  }

  lemma {:induction false} LessIsStrictOrder(a: Text, b: Text, c: Text)
    ensures !Less(a, a)
    ensures a == b || Less(a, b) || Less(b, a)
    ensures Less(a, b) ==> !Less(b, a)
    ensures Less(a, b) && Less(b, c) ==> Less(a, c)
    decreases |a| + |b| + |c|
  {
    if a != [] {
      LessIsStrictOrder(a[1..], if b == [] then [] else b[1..], if c == [] then [] else c[1..]);
    }
    if a != [] && b != [] && a[0] == b[0] {
      assert a == [a[0]] + a[1..] && b == [b[0]] + b[1..];
    }
  }

  /** The texts agree up to place k, and there a ends, or has the smaller unit. */
  predicate PrecedesAt(a: Text, b: Text, k: nat) {
    k <= |a| && k < |b| && a[..k] == b[..k] && (k == |a| || a[k] < b[k])
  }

  /** The order of code units that Array.prototype.sort puts strings in. */
  ghost predicate Precedes(a: Text, b: Text) {
    exists k: nat | k <= |a| :: PrecedesAt(a, b, k)
  }

  lemma {:induction false} LessIsPrecedes(a: Text, b: Text)
    ensures Less(a, b) <==> Precedes(a, b)
  {
    if a != [] && b != [] && a[0] == b[0] {
      LessIsPrecedes(a[1..], b[1..]);
      PrecedesAfter(a, b);
    } else {
      assert Less(a, b) ==> PrecedesAt(a, b, 0);
      if Precedes(a, b) {
        var k: nat :| k <= |a| && PrecedesAt(a, b, k);
        SameStart(a, b, k);
      }
    }
  }

  lemma SameStart(a: Text, b: Text, k: nat)
    requires PrecedesAt(a, b, k)
    ensures k > 0 ==> a != [] && b != [] && a[0] == b[0]
  {
    if k > 0 {
      assert a[..k][0] == a[0] && b[..k][0] == b[0];
    }
  }

  lemma PrecedesAfter(a: Text, b: Text)
    requires a != [] && b != [] && a[0] == b[0]
    ensures Precedes(a, b) <==> Precedes(a[1..], b[1..])
  {
    if Precedes(a, b) {
      var k: nat :| k <= |a| && PrecedesAt(a, b, k);
      assert k > 0;
      assert a[1..][..k - 1] == a[..k][1..] && b[1..][..k - 1] == b[..k][1..];
      assert PrecedesAt(a[1..], b[1..], k - 1);
    }
    if Precedes(a[1..], b[1..]) {
      var k: nat :| k <= |a[1..]| && PrecedesAt(a[1..], b[1..], k);
      assert a[..k + 1] == [a[0]] + a[1..][..k] && b[..k + 1] == [b[0]] + b[1..][..k];
      assert PrecedesAt(a, b, k + 1);
    }
  }

  /** Stable insertion by key. */
  function Insert<V>(e: Entry<V>, s: seq<Entry<V>>): seq<Entry<V>> {
    if s == [] || Less(e.key, s[0].key) then [e] + s else [s[0]] + Insert(e, s[1..])
  }

  /** Sorting by key. */
  function Sort<V>(s: seq<Entry<V>>): seq<Entry<V>> {
    if s == [] then [] else Insert(s[|s| - 1], Sort(s[..|s| - 1]))
  }

  ghost predicate DistinctKeys<V>(s: seq<Entry<V>>) {
    forall i, j | 0 <= i < j < |s| :: s[i].key != s[j].key
  }

  ghost predicate InOrder<V>(s: seq<Entry<V>>) {
    forall i, j | 0 <= i < j < |s| :: Less(s[i].key, s[j].key)
  }

  /** Ascending by code units. */
  ghost predicate Ascending<V>(s: seq<Entry<V>>) {
    forall i, j | 0 <= i < j < |s| :: Precedes(s[i].key, s[j].key)
  }

  lemma InOrderIsAscending<V>(s: seq<Entry<V>>)
    ensures InOrder(s) <==> Ascending(s)
  {
    forall i, j | 0 <= i < j < |s|
      ensures Less(s[i].key, s[j].key) <==> Precedes(s[i].key, s[j].key)
    {
      LessIsPrecedes(s[i].key, s[j].key);
    }
  }

  lemma {:induction false} InsertSpec<V>(e: Entry<V>, s: seq<Entry<V>>)
    requires InOrder(s) && forall i | 0 <= i < |s| :: s[i].key != e.key
    ensures InOrder(Insert(e, s)) && |Insert(e, s)| == |s| + 1
    ensures forall x :: x in Insert(e, s) ==> x == e || x in s
    ensures forall x :: x == e || x in s ==> x in Insert(e, s)
  {
    if s != [] {
      if Less(e.key, s[0].key) {
        forall i | 1 <= i < |s|
          ensures Less(e.key, s[i].key)
        {
          LessIsStrictOrder(e.key, s[0].key, s[i].key);
        }
      } else {
        LessIsStrictOrder(e.key, s[0].key, []);
        InsertSpec(e, s[1..]);
        var rest := Insert(e, s[1..]);
        forall i | 0 <= i < |rest|
          ensures Less(s[0].key, rest[i].key)
        {
          assert rest[i] in rest;
          if rest[i] != e {
            assert rest[i] in s[1..];
            var k :| 0 <= k < |s[1..]| && s[1..][k] == rest[i];
            assert Less(s[0].key, s[k + 1].key);
          }
        }
        assert s == [s[0]] + s[1..];
      }
    }
  }

  /** Sorting distinct keys yields the ascending arrangement of the same entries. */
  lemma {:induction false} SortSpec<V>(s: seq<Entry<V>>)
    requires DistinctKeys(s)
    ensures Ascending(Sort(s)) && InOrder(Sort(s)) && |Sort(s)| == |s| && DistinctKeys(Sort(s))
    ensures forall x :: x in Sort(s) <==> x in s
  {
    if s != [] {
      var init, last := s[..|s| - 1], s[|s| - 1];
      SortSpec(init);
      LastKeyIsNew(s, Sort(init));
      InsertSpec(last, Sort(init));
      assert s == init + [last];
    }
    InOrderIsDistinct(Sort(s));
    InOrderIsAscending(Sort(s));
  }

  lemma LastKeyIsNew<V>(s: seq<Entry<V>>, t: seq<Entry<V>>)
    requires s != [] && DistinctKeys(s) && forall x :: x in t <==> x in s[..|s| - 1]
    ensures forall i | 0 <= i < |t| :: t[i].key != s[|s| - 1].key
  {
    forall i | 0 <= i < |t|
      ensures t[i].key != s[|s| - 1].key
    {
      assert t[i] in t;
      var k :| 0 <= k < |s[..|s| - 1]| && s[..|s| - 1][k] == t[i];
      assert s[k].key != s[|s| - 1].key;
    }
  }

  lemma InOrderIsDistinct<V>(s: seq<Entry<V>>)
    requires InOrder(s)
    ensures DistinctKeys(s)
  {
    forall i, j | 0 <= i < j < |s|
      ensures s[i].key != s[j].key
    {
      LessIsStrictOrder(s[i].key, s[j].key, []);
    }
  }

  /** An ordered list is determined by its set of entries. */
  lemma {:induction false} InOrderIsUnique<V>(a: seq<Entry<V>>, b: seq<Entry<V>>)
    requires InOrder(a) && InOrder(b) && forall x :: x in a <==> x in b
    ensures a == b
  {
    if a == [] {
      EmptyTogether(a, b);
    } else {
      assert a[0] in b;
      assert b[0] in a;
      var i :| 0 <= i < |b| && b[i] == a[0];
      var j :| 0 <= j < |a| && a[j] == b[0];
      LessIsStrictOrder(a[0].key, b[0].key, []);
      assert a[0] == b[0];
      InOrderIsDistinct(a);
      InOrderIsDistinct(b);
      var a', b' := a[1..], b[1..];
      forall x
        ensures x in a' <==> x in b'
      {
        TailHas(a, x);
        TailHas(b, x);
      }
      InOrderIsUnique(a', b');
      assert a == [a[0]] + a' && b == [b[0]] + b';
    }
  }

  lemma EmptyTogether<V>(a: seq<Entry<V>>, b: seq<Entry<V>>)
    requires forall x :: x in b ==> x in a
    ensures a == [] ==> b == []
  {
    if b != [] {
      assert b[0] in b;
    }
  }

  lemma TailHas<V>(s: seq<Entry<V>>, x: Entry<V>)
    requires s != [] && DistinctKeys(s)
    ensures x in s[1..] <==> x in s && x != s[0]
  {
    if x in s && x != s[0] {
      var k :| 0 <= k < |s| && s[k] == x;
      assert s[1..][k - 1] == x;
    }
    if x in s[1..] {
      var k :| 0 <= k < |s[1..]| && s[1..][k] == x;
      assert s[k + 1] == x;
    }
  }

  /** Any ascending arrangement of the same entries is the sorted one. */
  lemma AscendingIsSorted<V>(s: seq<Entry<V>>, arranged: seq<Entry<V>>)
    requires DistinctKeys(s) && Ascending(arranged) && forall x :: x in arranged <==> x in s
    ensures Sort(s) == arranged
  {
    SortSpec(s);
    InOrderIsAscending(arranged);
    InOrderIsUnique(Sort(s), arranged);
  }

  /** Two arrangements of the same entries sort to the same list. */
  lemma SortIsCanonical<V>(a: seq<Entry<V>>, b: seq<Entry<V>>)
    requires DistinctKeys(a) && DistinctKeys(b) && forall x :: x in a <==> x in b
    ensures Sort(a) == Sort(b)
  {
    SortSpec(a);
    SortSpec(b);
    InOrderIsUnique(Sort(a), Sort(b));
  }
}
