/** The book that matching leaves behind: who survives, in what order, and why no two
    different users' orders are left crossing. */
module MatchedBook {
  import opened Domain
  import opened FlatBook
  import opened Matching

  /** A well-formed side: sorted, no identifier twice, every row a resting one of that side. */
  predicate SideOk(side: Side, s: seq<Row>) {
    && Sorted(side, s)
    && DistinctIds(s)
    && forall r | r in s :: r.side == side && r.Resting()
  }

  /** Only a user's own bid and ask may cross. */
  predicate NoCross(b: Book) {
    forall i, j | 0 <= i < |b.bids| && 0 <= j < |b.asks| ::
      b.bids[i].price >= b.asks[j].price ==> b.bids[i].user == b.asks[j].user
  }

  predicate BookOk(b: Book) {
    && SideOk(Buy, b.bids)
    && SideOk(Sell, b.asks)
    && (forall i, j | 0 <= i < |b.bids| && 0 <= j < |b.asks| :: b.bids[i].id != b.asks[j].id)
    && NoCross(b)
  }

  predicate FreshIn(b: Book, id: OrderId) { !HasId(b.bids, id) && !HasId(b.asks, id) }

  /** r is some row of s, up to its fill and status. */
  predicate Known(r: Row, s: seq<Row>) {
    exists i | 0 <= i < |s| :: r == s[i].(filled := r.filled, status := r.status)
  }

  function Drained(r: Row): Row { r.(filled := r.quantity, status := Filled) }

  function DrainedAll(s: seq<Row>): seq<Row> {
    seq(|s|, i requires 0 <= i < |s| => Drained(s[i]))
  }

  // ---- the split of the side ----

  /** The side splits at k. Before k, the taker's own orders are passed over and all others
      filled completely, each kept in order; from k on nothing has changed, except that the
      row at k may have given the last, partial trade. */
  ghost predicate SplitAt(taker: Row, book: seq<Row>, m: Matched, k: nat) {
    && k <= |book|
    && m.skipped == OwnOf(taker.user, book[..k])
    && m.consumed == DrainedAll(OthersOf(taker.user, book[..k]))
    && (forall i | 0 <= i < k :: Crosses(taker.side, taker.price, book[i].price))
    && |m.rest| == |book| - k
    && (|m.rest| > 0 ==>
          && m.rest[1..] == book[k + 1..]
          && Known(m.rest[0], [book[k]])
          && (m.taker.Remaining() > 0.0 ==>
                !Crosses(taker.side, taker.price, book[k].price) && m.rest[0] == book[k])
          && (book[k].Resting() ==> m.rest[0].Resting()))
  }

  lemma SplitAtStart(taker: Row, book: seq<Row>)
    requires Stops(taker, book)
    ensures SplitAt(taker, book, Match(taker, book), 0)
  {
    if |book| > 0 { assert book[0] == [book[0]][0]; }
  }

  lemma SplitStep(user: UserId, book: seq<Row>, j: nat)
    requires book != [] && j < |book|
    ensures OwnOf(user, book[..j + 1])
         == (if book[0].user == user then [book[0]] else []) + OwnOf(user, book[1..][..j])
    ensures OthersOf(user, book[..j + 1])
         == (if book[0].user == user then [] else [book[0]]) + OthersOf(user, book[1..][..j])
    ensures j < |book| - 1 ==> book[1..][j + 1..] == book[j + 2..] && book[1..][j] == book[j + 1]
  {
    assert book[..j + 1][1..] == book[1..][..j];
  }

  lemma SplitAtSkip(taker: Row, book: seq<Row>, m: Matched, k: nat)
    requires !Stops(taker, book) && taker.user == book[0].user && SplitAt(taker, book[1..], m, k)
    ensures SplitAt(taker, book, m.(skipped := [book[0]] + m.skipped), k + 1)
  {
    SplitStep(taker.user, book, k);
  }

  lemma SplitAtFill(taker: Row, taker': Row, book: seq<Row>, m: Matched, k: nat, ts: seq<Trade>)
    requires !Stops(taker, book) && taker.user != book[0].user && taker' == taker.(filled := taker'.filled)
    requires SplitAt(taker', book[1..], m, k)
    ensures SplitAt(taker, book, m.(consumed := [Drained(book[0])] + m.consumed, trades := ts), k + 1)
  {
    SplitStep(taker.user, book, k);
  }

  lemma SplitAtPartial(taker: Row, book: seq<Row>, m: Matched, maker: Row)
    requires !Stops(taker, book) && maker == book[0].(filled := maker.filled, status := maker.status)
    requires m.skipped == [] && m.consumed == [] && m.rest == [maker] + book[1..] && m.taker.Remaining() <= 0.0
    requires book[0].Resting() ==> maker.Resting()
    ensures SplitAt(taker, book, m, 0)
  {
    assert m.rest[0] == [book[0]][0].(filled := maker.filled, status := maker.status);
  }

  lemma {:induction false} MatchSplitsSide(taker: Row, book: seq<Row>) returns (k: nat)
    ensures SplitAt(taker, book, Match(taker, book), k)
    decreases |book|
  {
    var m := Match(taker, book);
    if Stops(taker, book) {
      k := 0;
      SplitAtStart(taker, book);
    } else if taker.user == book[0].user {
      var j := MatchSplitsSide(taker, book[1..]);
      SplitAtSkip(taker, book, Match(taker, book[1..]), j);
      k := j + 1;
    } else {
      var q := Min(taker.Remaining(), book[0].Remaining());
      var maker := FillMaker(book[0], q);
      var taker' := taker.(filled := taker.filled + q);
      if maker.Remaining() <= 0.0 {
        var j := MatchSplitsSide(taker', book[1..]);
        assert maker == Drained(book[0]);
        SplitAtFill(taker, taker', book, Match(taker', book[1..]), j, m.trades);
        k := j + 1;
      } else {
        k := 0;
        SplitAtPartial(taker, book, m, maker);
      }
    }
  }

  lemma {:induction false} OwnOfIsSubsequence(user: UserId, side: Side, s: seq<Row>)
    requires Sorted(side, s) && DistinctIds(s)
    ensures Sorted(side, OwnOf(user, s)) && DistinctIds(OwnOf(user, s))
    ensures forall r :: r in OwnOf(user, s) <==> r in s && r.user == user
  {
    if s != [] {
      OwnOfIsSubsequence(user, side, s[1..]);
      assert forall r | r in s[1..] :: exists i | 1 <= i < |s| :: s[i] == r;
      assert s == [s[0]] + s[1..];
    }
  }

  /** The two parts that matching leaves are well-formed, come from the side, and every
      skipped order is priced at least as well as every order of the rest. */
  lemma MatchLeavesSideOk(side: Side, taker: Row, book: seq<Row>) returns (k: nat)
    requires SideOk(side, book)
    ensures k <= |book|
    ensures var m := Match(taker, book);
      && SideOk(side, m.skipped)
      && SideOk(side, m.rest)
      && (forall r :: r in m.skipped <==> r in book[..k] && r.user == taker.user)
      && |m.rest| == |book| - k
      && (forall i | 0 <= i < |m.rest| :: Known(m.rest[i], [book[k + i]]))
      && (m.rest != [] ==> m.rest[1..] == book[k + 1..])
      && (forall x, y | x in m.skipped && y in m.rest ::
            !Better(side, y.price, x.price) && x.id != y.id)
  {
    k := MatchSplitsSide(taker, book);
    var m := Match(taker, book);
    OwnOfIsSubsequence(taker.user, side, book[..k]);
    forall i | 0 <= i < |m.rest|
      ensures Known(m.rest[i], [book[k + i]]) && m.rest[i].Resting()
    {
      if i > 0 {
        assert m.rest[i] == m.rest[1..][i - 1] == book[k + i];
        assert m.rest[i] == [book[k + i]][0];
      }
    }
    assert forall i | 0 <= i < |m.rest| :: m.rest[i].id == book[k + i].id && m.rest[i].price == book[k + i].price;
  }

  // ---- putting the skipped orders back ----

  lemma {:induction false} InsertAllSideOk(side: Side, s: seq<Row>, rs: seq<Row>)
    requires SideOk(side, s) && DistinctIds(rs)
    requires forall r | r in rs :: r.side == side && r.Resting()
    requires forall x, y | x in s && y in rs :: x.id != y.id
    ensures SideOk(side, InsertAll(side, s, rs))
    ensures multiset(InsertAll(side, s, rs)) == multiset(s) + multiset(rs)
    decreases |rs|
  {
    if rs != [] {
      var s' := Insert(side, s, rs[0]);
      InsertKeepsOrder(side, s, rs[0]);
      InsertKeepsIdsDistinct(side, s, rs[0]);
      InsertKeepsRows(side, s, rs[0]);
      assert forall x :: x in s' <==> x in multiset(s');
      assert rs == [rs[0]] + rs[1..];
      InsertAllSideOk(side, s', rs[1..]);
    }
  }

  lemma {:induction false} InsertAllAppend(side: Side, s: seq<Row>, a: seq<Row>, b: seq<Row>)
    ensures InsertAll(side, s, a + b) == InsertAll(side, InsertAll(side, s, a), b)
    decreases |a|
  {
    if a == [] {
      assert a + b == b;
    } else {
      assert (a + b)[1..] == a[1..] + b;
      InsertAllAppend(side, Insert(side, s, a[0]), a[1..], b);
    }
  }

  /** A sorted run that belongs between front and back goes there as one block. */
  lemma {:induction false} InsertBlock(side: Side, front: seq<Row>, back: seq<Row>, xs: seq<Row>)
    requires Sorted(side, xs)
    requires forall f, x | f in front && x in xs :: !Better(side, x.price, f.price)
    requires forall x, b | x in xs && b in back :: Better(side, x.price, b.price)
    ensures InsertAll(side, front + back, xs) == front + xs + back
    decreases |xs|
  {
    if xs == [] {
      assert front + xs == front;
    } else {
      var x := xs[0];
      InsertAt(side, front + back, x, |front|);
      assert (front + back)[..|front|] == front && (front + back)[|front|..] == back;
      assert front + [x] + back == (front + [x]) + back;
      forall f, y | f in front + [x] && y in xs[1..] ensures !Better(side, y.price, f.price) {
        if f !in front { assert f == x; }
      }
      InsertBlock(side, front + [x], back, xs[1..]);
      assert front + [x] + xs[1..] == front + xs;
    }
  }

  /** How many leading rows stand at price p. */
  function RunLength(s: seq<Row>, p: real): (n: nat)
    ensures n <= |s|
    ensures forall i | 0 <= i < n :: s[i].price == p
    ensures n < |s| ==> s[n].price != p
  {
    if s == [] || s[0].price != p then 0 else 1 + RunLength(s[1..], p)
  }

  /** How many leading rows are priced strictly better than p. */
  function AheadLength(side: Side, s: seq<Row>, p: real): (n: nat)
    ensures n <= |s|
    ensures forall i | 0 <= i < n :: Better(side, s[i].price, p)
    ensures n < |s| ==> !Better(side, s[n].price, p)
  {
    if s == [] || !Better(side, s[0].price, p) then 0 else 1 + AheadLength(side, s[1..], p)
  }

  /** skipped[..a] is priced better than the level rest[..l] that follows it, and
      skipped[a..] stands in that same level. */
  predicate SplitsAtLevel(side: Side, skipped: seq<Row>, rest: seq<Row>, a: nat, l: nat) {
    && a <= |skipped| && l <= |rest|
    && (rest == [] ==> a == |skipped|)
    && (rest != [] ==>
          && 0 < l
          && (forall i | 0 <= i < a :: Better(side, skipped[i].price, rest[0].price))
          && (forall i | a <= i < |skipped| :: skipped[i].price == rest[0].price)
          && (forall i | 0 <= i < l :: rest[i].price == rest[0].price)
          && (forall i | l <= i < |rest| :: Better(side, rest[0].price, rest[i].price)))
  }

  lemma LevelSplit(side: Side, skipped: seq<Row>, rest: seq<Row>) returns (a: nat, l: nat)
    requires Sorted(side, skipped) && Sorted(side, rest)
    requires forall x, y | x in skipped && y in rest :: !Better(side, y.price, x.price)
    ensures SplitsAtLevel(side, skipped, rest, a, l)
  {
    if rest == [] {
      a, l := |skipped|, 0;
    } else {
      assert rest[0] in rest;
      a, l := AheadLength(side, skipped, rest[0].price), RunLength(rest, rest[0].price);
      assert forall i | a <= i < |skipped| :: skipped[i] in skipped;
    }
  }

  lemma PutBackAhead(side: Side, skipped: seq<Row>, rest: seq<Row>, a: nat, l: nat)
    requires Sorted(side, skipped) && SplitsAtLevel(side, skipped, rest, a, l)
    ensures InsertAll(side, rest, skipped[..a]) == skipped[..a] + rest
  {
    var ahead := skipped[..a];
    forall x, b | x in ahead && b in rest ensures Better(side, x.price, b.price) {
      var j :| 0 <= j < |rest| && rest[j] == b;
    }
    InsertBlock(side, [], rest, ahead);
    assert [] + rest == rest && [] + ahead == ahead;
  }

  lemma PutBackBehind(side: Side, skipped: seq<Row>, rest: seq<Row>, a: nat, l: nat)
    requires Sorted(side, skipped) && SplitsAtLevel(side, skipped, rest, a, l)
    ensures InsertAll(side, (skipped[..a] + rest[..l]) + rest[l..], skipped[a..])
         == skipped[..a] + rest[..l] + skipped[a..] + rest[l..]
  {
    var front := skipped[..a] + rest[..l];
    forall f, x | f in front && x in skipped[a..] ensures !Better(side, x.price, f.price) {
      if f !in skipped[..a] { assert f in rest[..l]; }
    }
    InsertBlock(side, front, rest[l..], skipped[a..]);
  }

  lemma PutBack(side: Side, skipped: seq<Row>, rest: seq<Row>, a: nat, l: nat)
    requires Sorted(side, skipped) && SplitsAtLevel(side, skipped, rest, a, l)
    ensures InsertAll(side, rest, skipped) == skipped[..a] + rest[..l] + skipped[a..] + rest[l..]
  {
    var ahead, behind := skipped[..a], skipped[a..];
    var level, worse := rest[..l], rest[l..];
    calc {
      InsertAll(side, rest, skipped);
      { assert skipped == ahead + behind; InsertAllAppend(side, rest, ahead, behind); }
      InsertAll(side, InsertAll(side, rest, ahead), behind);
      { PutBackAhead(side, skipped, rest, a, l); }
      InsertAll(side, ahead + rest, behind);
      { assert ahead + rest == (ahead + level) + worse; }
      InsertAll(side, (ahead + level) + worse, behind);
      { PutBackBehind(side, skipped, rest, a, l); }
      ahead + level + behind + worse;
    }
  }

  /** The side after matching: survivors in unchanged order, except that within the level
      where the taker stopped, the skipped orders stand behind the rest of the level. */
  lemma SideAfterMatch(taker: Row, book: seq<Row>) returns (a: nat, l: nat)
    requires SideOk(taker.side.Opposite(), book)
    ensures var m := Match(taker, book);
      && SplitsAtLevel(taker.side.Opposite(), m.skipped, m.rest, a, l)
      && AfterMatch(taker, book) == m.skipped[..a] + m.rest[..l] + m.skipped[a..] + m.rest[l..]
  {
    var m := Match(taker, book);
    var k := MatchLeavesSideOk(taker.side.Opposite(), taker, book);
    a, l := LevelSplit(taker.side.Opposite(), m.skipped, m.rest);
    PutBack(taker.side.Opposite(), m.skipped, m.rest, a, l);
  }

  lemma OrderKeptIff(side: Side, skipped: seq<Row>, rest: seq<Row>, a: nat, l: nat)
    requires SplitsAtLevel(side, skipped, rest, a, l)
    requires forall x, y | x in skipped && y in rest :: x.id != y.id
    ensures (skipped[..a] + rest[..l] + skipped[a..] + rest[l..] == skipped + rest)
       <==> (rest == [] || forall s | s in skipped :: s.price != rest[0].price)
  {
    var after := skipped[..a] + rest[..l] + skipped[a..] + rest[l..];
    if a < |skipped| {
      assert after[a] == rest[0] && rest[0] in rest;
      assert (skipped + rest)[a] == skipped[a] && skipped[a] in skipped;
    } else {
      assert forall s | s in skipped :: exists i | 0 <= i < a :: skipped[i] == s;
      assert skipped[..a] == skipped && skipped[a..] == [] && rest[..l] + rest[l..] == rest;
    }
  }

  /** Skipped orders keep their place exactly when none of them stands in the level where
      the taker stopped. */
  lemma SkippedKeepPlaceIff(taker: Row, book: seq<Row>)
    requires SideOk(taker.side.Opposite(), book)
    ensures var m := Match(taker, book);
      (AfterMatch(taker, book) == m.skipped + m.rest)
      <==> (m.rest == [] || forall s | s in m.skipped :: s.price != m.rest[0].price)
  {
    var m := Match(taker, book);
    var k := MatchLeavesSideOk(taker.side.Opposite(), taker, book);
    var a, l := LevelSplit(taker.side.Opposite(), m.skipped, m.rest);
    PutBack(taker.side.Opposite(), m.skipped, m.rest, a, l);
    OrderKeptIff(taker.side.Opposite(), m.skipped, m.rest, a, l);
  }
}
