/**
 The store's sorted set, as the circuit-breaker statistics use it: members are
 request ids, scores are request timestamps. A set is kept as a sequence of
 entries in ascending rank order: by score, and between equal scores by the
 request id compared character by character, as the store orders members.
 */
module SortedSet {

  /** One member of a sorted set: the request id and its score (the timestamp). */
  datatype Entry = Entry(id: string, ts: int)

  // ---------------------------------------------------------------------------
  // Rank order
  // ---------------------------------------------------------------------------

  /** Strict lexicographic order on request ids. */
  predicate LexLess(a: string, b: string)
  {
    if |a| == 0 then |b| > 0
    else if |b| == 0 then false
    else a[0] < b[0] || (a[0] == b[0] && LexLess(a[1..], b[1..]))
  }

  lemma {:induction false} LexLessIrreflexive(a: string)
    ensures !LexLess(a, a)
  {
    if |a| > 0 {
      LexLessIrreflexive(a[1..]);
    }
  }

  lemma {:induction false} LexLessTransitive(a: string, b: string, c: string)
    requires LexLess(a, b) && LexLess(b, c)
    ensures LexLess(a, c)
  {
    if |a| > 0 && a[0] == b[0] && b[0] == c[0] {
      LexLessTransitive(a[1..], b[1..], c[1..]);
    }
  }

  lemma {:induction false} LexLessTotal(a: string, b: string)
    requires a != b
    ensures LexLess(a, b) || LexLess(b, a)
  {
    if |a| > 0 && |b| > 0 && a[0] == b[0] {
      assert a == [a[0]] + a[1..] && b == [b[0]] + b[1..];
      LexLessTotal(a[1..], b[1..]);
    }
  }

  /** `x` ranks below `y`: an older timestamp, or the same one and a smaller id. */
  predicate Before(x: Entry, y: Entry)
  {
    x.ts < y.ts || (x.ts == y.ts && LexLess(x.id, y.id))
  }

  lemma BeforeTransitive(x: Entry, y: Entry, z: Entry)
    requires Before(x, y) && Before(y, z)
    ensures Before(x, z)
  {
    if x.ts == y.ts == z.ts {
      LexLessTransitive(x.id, y.id, z.id);
    }
  }

  lemma BeforeAsymmetric(x: Entry, y: Entry)
    requires Before(x, y)
    ensures !Before(y, x)
  {
    if Before(y, x) {
      LexLessTransitive(x.id, y.id, x.id);
      LexLessIrreflexive(x.id);
    }
  }

  /** Two entries with different ids are always ranked one way or the other, never both. */
  lemma BeforeTotal(x: Entry, y: Entry)
    requires x.id != y.id
    ensures Before(x, y) || Before(y, x)
    ensures !(Before(x, y) && Before(y, x))
  {
    LexLessTotal(x.id, y.id);
    if Before(x, y) {
      BeforeAsymmetric(x, y);
    }
  }

  // ---------------------------------------------------------------------------
  // Well-formed sets
  // ---------------------------------------------------------------------------

  ghost predicate Sorted(s: seq<Entry>)
  {
    forall i, j :: 0 <= i < j < |s| ==> Before(s[i], s[j])
  }

  ghost predicate DistinctIds(s: seq<Entry>)
  {
    forall i, j :: 0 <= i < j < |s| ==> s[i].id != s[j].id
  }

  /** A sorted set as the store keeps it: in rank order, each member once. */
  ghost predicate ValidSet(s: seq<Entry>)
  {
    Sorted(s) && DistinctIds(s)
  }

  /** The member-to-score view of a set. */
  function Scores(s: seq<Entry>): (m: map<string, int>)
    ensures forall id :: id in m <==> exists i :: 0 <= i < |s| && s[i].id == id
  {
    if s == [] then map[]
    else
      Scores(s[1..])[s[0].id := s[0].ts]
  }

  // ---------------------------------------------------------------------------
  // ZADD: set a member's score
  // ---------------------------------------------------------------------------

  /** The set without the member `id`. */
  function RemoveId(s: seq<Entry>, id: string): (r: seq<Entry>)
    ensures forall x :: x in r <==> x in s && x.id != id
    ensures |r| <= |s|
  {
    if s == [] then []
    else if s[0].id == id then RemoveId(s[1..], id)
    else [s[0]] + RemoveId(s[1..], id)
  }

  /** `e` placed at its rank among the entries of `s`. */
  function InsertSorted(s: seq<Entry>, e: Entry): (r: seq<Entry>)
    ensures multiset(r) == multiset(s) + multiset{e}
  {
    if s == [] || Before(e, s[0]) then [e] + s
    else
      assert s == [s[0]] + s[1..];
      [s[0]] + InsertSorted(s[1..], e)
  }

  /** ZADD: the member gets the new score, whether it was in the set before or not. */
  function Add(s: seq<Entry>, id: string, ts: int): (r: seq<Entry>)
    ensures Entry(id, ts) in r
    ensures forall x :: x in r <==> x == Entry(id, ts) || (x in s && x.id != id)
    ensures |r| <= |s| + 1
  {
    var rest := RemoveId(s, id);
    var r := InsertSorted(rest, Entry(id, ts));
    assert forall x :: x in r <==> x in multiset(r);
    r
  }

  /** A member ranked below every member of a valid set, with an id of its own, can go in front. */
  lemma ConsValid(h: Entry, t: seq<Entry>)
    requires ValidSet(t)
    requires forall x :: x in t ==> Before(h, x) && h.id != x.id
    ensures ValidSet([h] + t)
  {
    var s := [h] + t;
    forall i, j | 0 <= i < j < |s|
      ensures Before(s[i], s[j]) && s[i].id != s[j].id
    {
      if i == 0 {
        assert s[j] == t[j - 1];
      } else {
        assert s[i] == t[i - 1] && s[j] == t[j - 1];
      }
    }
  }

  /** A member of the tail of a sequence is a member of the sequence. */
  lemma TailMember(s: seq<Entry>, x: Entry)
    requires s != [] && x in s[1..]
    ensures exists j :: 1 <= j < |s| && s[j] == x
  {
    var j :| 0 <= j < |s[1..]| && s[1..][j] == x;
    assert s[j + 1] == x;
  }

  lemma {:induction false} RemoveIdValid(s: seq<Entry>, id: string)
    requires ValidSet(s)
    ensures ValidSet(RemoveId(s, id))
  {
    if s != [] {
      RemoveIdValid(s[1..], id);
      var t := RemoveId(s[1..], id);
      if s[0].id != id {
        forall x | x in t
          ensures Before(s[0], x) && s[0].id != x.id
        {
          TailMember(s, x);
        }
        ConsValid(s[0], t);
      }
    }
  }

  lemma {:induction false} InsertSortedValid(s: seq<Entry>, e: Entry)
    requires ValidSet(s)
    requires forall x :: x in s ==> x.id != e.id
    ensures ValidSet(InsertSorted(s, e))
  {
    if s == [] {
    } else if Before(e, s[0]) {
      forall x | x in s
        ensures Before(e, x) && e.id != x.id
      {
        if x != s[0] {
          TailMember(s, x);
          BeforeTransitive(e, s[0], x);
        }
      }
      ConsValid(e, s);
    } else {
      BeforeTotal(e, s[0]);
      InsertSortedValid(s[1..], e);
      var t := InsertSorted(s[1..], e);
      assert forall x :: x in t <==> x in multiset(t);
      forall x | x in t
        ensures Before(s[0], x) && s[0].id != x.id
      {
        if x != e {
          TailMember(s, x);
        }
      }
      ConsValid(s[0], t);
    }
  }


  /** ZADD keeps a well-formed set well-formed. */
  lemma AddValid(s: seq<Entry>, id: string, ts: int)
    requires ValidSet(s)
    ensures ValidSet(Add(s, id, ts))
  {
    RemoveIdValid(s, id);
    InsertSortedValid(RemoveId(s, id), Entry(id, ts));
  }

  lemma {:induction false} RemoveIdScores(s: seq<Entry>, id: string)
    ensures Scores(RemoveId(s, id)) == Scores(s) - {id}
  {
    if s != [] {
      RemoveIdScores(s[1..], id);
    }
  }

  lemma {:induction false} InsertSortedScores(s: seq<Entry>, e: Entry)
    requires forall x :: x in s ==> x.id != e.id
    ensures Scores(InsertSorted(s, e)) == Scores(s)[e.id := e.ts]
  {
    if s != [] && !Before(e, s[0]) {
      assert s[0] in s;
      InsertSortedScores(s[1..], e);
    }
  }

  /**
   ZADD as a map update: the member's score becomes `ts`, every other member
   keeps its score. Re-adding a member replaces its score instead of
   creating a second member.
   */
  lemma AddScores(s: seq<Entry>, id: string, ts: int)
    ensures Scores(Add(s, id, ts)) == Scores(s)[id := ts]
  {
    RemoveIdScores(s, id);
    InsertSortedScores(RemoveId(s, id), Entry(id, ts));
  }

  lemma {:induction false} RemoveIdSize(s: seq<Entry>, id: string)
    requires DistinctIds(s)
    ensures |RemoveId(s, id)| == if id in Scores(s) then |s| - 1 else |s|
  {
    if s != [] {
      RemoveIdSize(s[1..], id);
      if s[0].id == id {
        assert id !in Scores(s[1..]);
      }
    }
  }

  /** ZADD grows a set by one exactly when the member is new. */
  lemma AddSize(s: seq<Entry>, id: string, ts: int)
    requires ValidSet(s)
    ensures |Add(s, id, ts)| == if id in Scores(s) then |s| else |s| + 1
  {
    RemoveIdSize(s, id);
    assert |InsertSorted(RemoveId(s, id), Entry(id, ts))|
        == |multiset(InsertSorted(RemoveId(s, id), Entry(id, ts)))|;
  }

  lemma {:induction false} InsertSortedLast(s: seq<Entry>, e: Entry)
    requires forall x :: x in s ==> Before(x, e)
    ensures InsertSorted(s, e) == s + [e]
  {
    if s != [] {
      assert s[0] in s;
      BeforeAsymmetric(s[0], e);
      InsertSortedLast(s[1..], e);
      assert s == [s[0]] + s[1..];
    }
  }

  /**
   Adding a new member with a timestamp newer than every member's puts it
   at the top rank.
   */
  lemma {:induction false} AddNewest(s: seq<Entry>, id: string, ts: int)
    requires forall x :: x in s ==> x.ts < ts && x.id != id
    ensures Add(s, id, ts) == s + [Entry(id, ts)]
  {
    assert RemoveId(s, id) == s by {
      RemoveIdAbsent(s, id);
    }
    InsertSortedLast(s, Entry(id, ts));
  }

  lemma {:induction false} RemoveIdAbsent(s: seq<Entry>, id: string)
    requires forall x :: x in s ==> x.id != id
    ensures RemoveId(s, id) == s
  {
    if s != [] {
      assert s[0] in s;
      RemoveIdAbsent(s[1..], id);
      assert s == [s[0]] + s[1..];
    }
  }

  // ---------------------------------------------------------------------------
  // ZREMRANGEBYRANK: keep the newest members
  // ---------------------------------------------------------------------------

  /** The set cut down to its `n` highest-ranked (newest) members. */
  function TrimToNewest(s: seq<Entry>, n: nat): (r: seq<Entry>)
    ensures |r| == (if |s| <= n then |s| else n)
  {
    if |s| <= n then s else s[|s| - n..]
  }

  /**
   Trimming leaves `min(|s|, n)` members; nothing is removed while the set
   fits; the removed members are exactly a prefix of the rank order, so each
   of them ranks below every survivor (it is older, or equally old with a
   smaller id).
   */
  lemma TrimKeepsNewest(s: seq<Entry>, n: nat)
    requires ValidSet(s)
    ensures var r := TrimToNewest(s, n);
      && |r| == (if |s| <= n then |s| else n)
      && ValidSet(r)
      && s == s[..|s| - |r|] + r
      && (forall i, x :: 0 <= i < |s| - |r| && x in r ==> Before(s[i], x))
  {
    var r := TrimToNewest(s, n);
    forall i, x | 0 <= i < |s| - |r| && x in r
      ensures Before(s[i], x)
    {
      var j :| 0 <= j < |r| && r[j] == x;
      assert s[|s| - |r| + j] == x;
    }
  }

  /** Trimming only removes members. */
  lemma TrimSubset(s: seq<Entry>, n: nat, x: Entry)
    requires x in TrimToNewest(s, n)
    ensures x in s
  {
    var r := TrimToNewest(s, n);
    var j :| 0 <= j < |r| && r[j] == x;
    assert s[|s| - |r| + j] == x;
  }

  /**
   Appending a newest member to a trimmed set and trimming again gives the
   same set as appending to the untrimmed one: trimming after every write
   keeps the newest `n` members of everything written.
   */
  lemma TrimAppend(s: seq<Entry>, e: Entry, n: nat)
    requires n >= 1
    ensures TrimToNewest(TrimToNewest(s, n) + [e], n) == TrimToNewest(s + [e], n)
  {
    if |s| > n {
      assert (s[|s| - n..] + [e])[1..] == (s + [e])[|s| + 1 - n..];
    }
  }

  // ---------------------------------------------------------------------------
  // ZCOUNT: members within the age window
  // ---------------------------------------------------------------------------

  /**
   The number of members whose age at `now` is at most `maxAge`, never more
   than the set's size. `InWindowCountIsWindowSize` gives its exact value.
   */
  function InWindowCount(s: seq<Entry>, now: int, maxAge: int): (n: nat)
    ensures n <= |s|
  {
    if s == [] then 0
    else (if now - s[0].ts <= maxAge then 1 else 0) + InWindowCount(s[1..], now, maxAge)
  }

  /**
   A set whose members are all within the window counts in full; one whose
   members are all older than the window counts nothing.
   */
  lemma {:induction false} InWindowCountExtremes(s: seq<Entry>, now: int, maxAge: int)
    ensures (forall x :: x in s ==> now - x.ts <= maxAge) ==> InWindowCount(s, now, maxAge) == |s|
    ensures (forall x :: x in s ==> now - x.ts > maxAge) ==> InWindowCount(s, now, maxAge) == 0
  {
    if s != [] {
      InWindowCountExtremes(s[1..], now, maxAge);
      assert forall x :: x in s[1..] ==> x in s;
    }
  }

  /** Counting a set split in two counts each part. */
  lemma {:induction false} InWindowCountAppend(s: seq<Entry>, t: seq<Entry>, now: int, maxAge: int)
    ensures InWindowCount(s + t, now, maxAge) == InWindowCount(s, now, maxAge) + InWindowCount(t, now, maxAge)
  {
    if s != [] {
      InWindowCountAppend(s[1..], t, now, maxAge);
      assert (s + t)[0] == s[0];
      assert (s + t)[1..] == s[1..] + t;
    } else {
      assert s + t == t;
    }
  }

  /** The request ids whose age at `now` is at most `maxAge`, the boundary included. */
  function WindowIds(s: seq<Entry>, now: int, maxAge: int): set<string>
  {
    set i | 0 <= i < |s| && now - s[i].ts <= maxAge :: s[i].id
  }

  lemma WindowIdsCons(s: seq<Entry>, now: int, maxAge: int)
    requires s != []
    ensures WindowIds(s, now, maxAge)
         == (if now - s[0].ts <= maxAge then {s[0].id} else {}) + WindowIds(s[1..], now, maxAge)
  {
    var t := s[1..];
    forall id | id in WindowIds(s, now, maxAge)
      ensures id == s[0].id || id in WindowIds(t, now, maxAge)
    {
      var i :| 0 <= i < |s| && now - s[i].ts <= maxAge && s[i].id == id;
      if i > 0 {
        assert t[i - 1] == s[i];
      }
    }
    forall id | id in WindowIds(t, now, maxAge)
      ensures id in WindowIds(s, now, maxAge)
    {
      var j :| 0 <= j < |t| && now - t[j].ts <= maxAge && t[j].id == id;
      assert s[j + 1] == t[j];
    }
  }

  /**
   The count is the number of distinct request ids in the window: a member
   `t` old at evaluation time counts exactly when `t <= maxAge`.
   */
  lemma {:induction false} InWindowCountIsWindowSize(s: seq<Entry>, now: int, maxAge: int)
    requires DistinctIds(s)
    ensures InWindowCount(s, now, maxAge) == |WindowIds(s, now, maxAge)|
  {
    if s != [] {
      var t := s[1..];
      InWindowCountIsWindowSize(t, now, maxAge);
      WindowIdsCons(s, now, maxAge);
      assert s[0].id !in WindowIds(t, now, maxAge);
    }
  }
}
