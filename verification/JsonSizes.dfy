/** A bound on the length of printed values, which makes small documents small enough for every limit. */
module JsonSizes {
  import opened SortedEntries
  import opened Json
  import opened CanonicalCodec

  function Size(v: Json): nat
    decreases v, 1
  {
    match v
    case JNum(n) => |NumText(n)|
    case JStr(s) => 6 * |s| + 2
    case JArr(es) => 2 + SizeAll(es)
    case JObj(ms) => 2 + SizeMembers(ms)
    case _ => 5
  }

  function SizeAll(es: seq<Json>): nat
    decreases es, 0
  {
    if es == [] then 0 else Size(es[0]) + 1 + SizeAll(es[1..])
  }

  function EntrySize(m: Entry<Json>): nat
    decreases m, 2
  {
    6 * |m.key| + 4 + Size(m.val)
  }

  function SizeMembers(ms: seq<Entry<Json>>): nat
    decreases ms, 0
  {
    if ms == [] then 0 else EntrySize(ms[0]) + SizeMembers(ms[1..])
  }

  lemma {:induction false} EscapedFits(s: Text)
    ensures |Escaped(s)| <= 6 * |s|
  {
    if s != [] {
      if IsHigh(s[0]) && |s| > 1 && IsLow(s[1]) {
        EscapedFits(s[2..]);
      } else {
        EscapedFits(s[1..]);
      }
    }
  }

  function Lengths(ts: seq<Text>): nat {
    if ts == [] then 0 else |ts[0]| + 1 + Lengths(ts[1..])
  }

  lemma {:induction false} JoinedFits(ts: seq<Text>)
    ensures |Joined(ts)| <= Lengths(ts)
  {
    if |ts| > 1 {
      JoinedFits(ts[1..]);
    }
  }

  /** The texts of members, in any order. */
  function TextSizes(ps: seq<Entry<Text>>): nat {
    if ps == [] then 0 else 6 * |ps[0].key| + 4 + |ps[0].val| + TextSizes(ps[1..])
  }

  lemma {:induction false} MemberTextsFit(ps: seq<Entry<Text>>)
    ensures Lengths(MemberTexts(ps)) <= TextSizes(ps)
  {
    if ps != [] {
      EscapedFits(ps[0].key);
      assert MemberTexts(ps)[1..] == MemberTexts(ps[1..]);
      MemberTextsFit(ps[1..]);
    }
  }

  lemma {:induction false} InsertFits(e: Entry<Text>, ps: seq<Entry<Text>>)
    ensures TextSizes(Insert(e, ps)) == 6 * |e.key| + 4 + |e.val| + TextSizes(ps)
  {
    if ps != [] && !Less(e.key, ps[0].key) {
      InsertFits(e, ps[1..]);
    }
  }

  lemma {:induction false} TextSizesOfInit(ps: seq<Entry<Text>>)
    requires ps != []
    ensures var last := ps[|ps| - 1];
            TextSizes(ps) == TextSizes(ps[..|ps| - 1]) + 6 * |last.key| + 4 + |last.val|
  {
    if |ps| > 1 {
      TextSizesOfInit(ps[1..]);
      assert ps[1..][..|ps| - 2] == ps[..|ps| - 1][1..];
    }
  }

  lemma {:induction false} SortFits(ps: seq<Entry<Text>>)
    ensures TextSizes(Sort(ps)) == TextSizes(ps)
  {
    if ps != [] {
      var n := |ps| - 1;
      SortFits(ps[..n]);
      InsertFits(ps[n], Sort(ps[..n]));
      TextSizesOfInit(ps);
    }
  }

  lemma {:induction false} PrintFits(v: Json)
    ensures |Print(v)| <= Size(v)
    decreases v, 1
  {
    match v
    case JStr(s) => EscapedFits(s);
    case JArr(es) =>
      AllFit(es);
      JoinedFits(PrintAll(es));
    case JObj(ms) =>
      var ps := PrintMembers(ms);
      MembersFit(ms);
      SortFits(ps);
      MemberTextsFit(Sort(ps));
      JoinedFits(MemberTexts(Sort(ps)));
    case _ =>
  }

  lemma {:induction false} AllFit(es: seq<Json>)
    ensures Lengths(PrintAll(es)) <= SizeAll(es)
    decreases es, 0
  {
    if es != [] {
      PrintFits(es[0]);
      AllFit(es[1..]);
      assert PrintAll(es)[1..] == PrintAll(es[1..]);
    }
  }

  lemma {:induction false} MembersFit(ms: seq<Entry<Json>>)
    ensures TextSizes(PrintMembers(ms)) <= SizeMembers(ms)
    decreases ms, 0
  {
    if ms != [] {
      PrintFits(ms[0].val);
      MembersFit(ms[1..]);
      assert PrintMembers(ms)[1..] == PrintMembers(ms[1..]);
    }
  }

  lemma {:induction false} Utf8Fits(t: Text)
    ensures Utf8Length(t) <= 3 * |t|
  {
    if t != [] {
      if |t| > 1 && IsHigh(t[0]) && IsLow(t[1]) {
        Utf8Fits(t[2..]);
      } else {
        Utf8Fits(t[1..]);
      }
    }
  }

  lemma {:induction false} SmallMembers(ms: seq<Entry<Json>>, bound: nat)
    requires forall i | 0 <= i < |ms| :: EntrySize(ms[i]) <= bound
    ensures SizeMembers(ms) <= |ms| * bound
  {
    if ms != [] {
      var n := |ms[1..]|;
      forall i | 0 <= i < n
        ensures EntrySize(ms[1..][i]) <= bound
      {
        assert ms[1..][i] == ms[i + 1];
      }
      SmallMembers(ms[1..], bound);
      OneMore(n, bound);
    }
  }

  lemma OneMore(n: nat, bound: nat)
    ensures (n + 1) * bound == bound + n * bound
  {
  }
}
