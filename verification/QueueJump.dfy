/** When exactly a taker's own resting orders lose their place: a test on the book and the
    taker, before matching. */
module QueueJump {
  import opened Domain
  import opened FlatBook
  import opened Matching
  import opened MatchedBook

  /** What other users offer ahead of position i. */
  function Ahead(user: UserId, book: seq<Row>, i: nat): real
    requires i <= |book|
  {
    SumRemaining(OthersOf(user, book[..i]))
  }

  /** The taker accepts the price at i, reaches it still wanting more, and can take all of
      it if it is another user's. */
  predicate GoesPast(taker: Row, book: seq<Row>, i: nat)
    requires i < |book|
  {
    && Crosses(taker.side, taker.price, book[i].price)
    && Ahead(taker.user, book, i) < taker.Remaining()
    && Ahead(taker.user, book, i + 1) <= taker.Remaining()
  }

  lemma AheadStep(user: UserId, book: seq<Row>, i: nat)
    requires book != [] && 0 < i <= |book|
    ensures Ahead(user, book, i)
         == (if book[0].user == user then 0.0 else book[0].Remaining()) + Ahead(user, book[1..], i - 1)
  {
    SplitStep(user, book, i - 1);
    var others := OthersOf(user, book[1..][..i - 1]);
    if book[0].user != user { assert ([book[0]] + others)[1..] == others; }
    assert [] + others == others;
  }

  lemma {:induction false} OthersAreOpen(user: UserId, s: seq<Row>)
    requires AllOpen(s)
    ensures AllOpen(OthersOf(user, s)) && SumRemaining(OthersOf(user, s)) >= 0.0
  {
    if s != [] { OthersAreOpen(user, s[1..]); }
    SumNonNegative(OthersOf(user, s));
  }

  lemma AheadNonNegative(user: UserId, book: seq<Row>, i: nat)
    requires AllOpen(book) && i <= |book|
    ensures Ahead(user, book, i) >= 0.0
  {
    OthersAreOpen(user, book[..i]);
  }

  lemma RestIsSuffix(taker: Row, book: seq<Row>)
    ensures |Match(taker, book).rest| <= |book|
  {
    var k := MatchSplitsSide(taker, book);
  }

  /** Matching goes past exactly the positions that satisfy the test. */
  lemma {:induction false} GoesPastIff(taker: Row, book: seq<Row>, i: nat)
    requires AllOpen(book) && Sorted(taker.side.Opposite(), book) && i < |book|
    ensures i < |book| - |Match(taker, book).rest| <==> GoesPast(taker, book, i)
    decreases |book|
  {
    AheadNonNegative(taker.user, book, i);
    if Stops(taker, book) {
      assert i > 0 ==> !Better(taker.side.Opposite(), book[i].price, book[0].price);
    } else {
      assert Ahead(taker.user, book, 0) == 0.0;
      AheadStep(taker.user, book, i + 1);
      if i > 0 { AheadStep(taker.user, book, i); }
      AheadNonNegative(taker.user, book[1..], i);
      if i > 0 { AheadNonNegative(taker.user, book[1..], i - 1); }
      assert Ahead(taker.user, book[1..], 0) == 0.0;
      var q := Min(taker.Remaining(), book[0].Remaining());
      var taker' := if taker.user == book[0].user then taker else taker.(filled := taker.filled + q);
      if i > 0 { GoesPastIff(taker', book[1..], i - 1); } else { RestIsSuffix(taker', book[1..]); }
    }
  }

  /** The taker goes past its own order at i and stops before one at j of the same price. */
  predicate Overtakes(taker: Row, book: seq<Row>, i: int, j: int) {
    && 0 <= i < j < |book|
    && book[i].user == taker.user && book[i].price == book[j].price
    && GoesPast(taker, book, i) && !GoesPast(taker, book, j)
  }

  lemma SkippedInStoppingLevel(taker: Row, book: seq<Row>, k: nat, s: Row)
    requires k < |book| && (forall i | 0 <= i < |book| :: GoesPast(taker, book, i) <==> i < k)
    requires s in book[..k] && s.user == taker.user && s.price == book[k].price
    ensures exists i :: Overtakes(taker, book, i, k)
  {
    var i :| 0 <= i < k && book[..k][i] == s;
    assert Overtakes(taker, book, i, k);
  }

  lemma OvertakenInStoppingLevel(taker: Row, book: seq<Row>, k: nat, i: nat, j: nat)
    requires k <= |book| && (forall i | 0 <= i < |book| :: GoesPast(taker, book, i) <==> i < k)
    requires Sorted(taker.side.Opposite(), book) && Overtakes(taker, book, i, j)
    ensures k < |book| && book[i] in book[..k] && book[i].price == book[k].price
  {
    assert book[..k][i] == book[i];
    assert !Better(taker.side.Opposite(), book[k].price, book[i].price);
    assert k < j ==> !Better(taker.side.Opposite(), book[j].price, book[k].price);
  }

  lemma StoppingPrice(taker: Row, book: seq<Row>, k: nat)
    requires k <= |book| && |Match(taker, book).rest| == |book| - k
    requires forall i | 0 <= i < |Match(taker, book).rest| :: Known(Match(taker, book).rest[i], [book[k + i]])
    ensures k < |book| ==> Match(taker, book).rest[0].price == book[k].price
  {
    if k < |book| { assert Known(Match(taker, book).rest[0], [book[k + 0]]); }
  }

  lemma PlaceTest(taker: Row, book: seq<Row>, k: nat, skipped: seq<Row>)
    requires k <= |book| && Sorted(taker.side.Opposite(), book)
    requires forall i | 0 <= i < |book| :: GoesPast(taker, book, i) <==> i < k
    requires forall r :: r in skipped <==> r in book[..k] && r.user == taker.user
    ensures (k == |book| || forall s | s in skipped :: s.price != book[k].price)
       <==> !exists i, j :: Overtakes(taker, book, i, j)
  {
    if s :| k < |book| && s in skipped && s.price == book[k].price {
      SkippedInStoppingLevel(taker, book, k, s);
    }
    if i, j :| Overtakes(taker, book, i, j) {
      OvertakenInStoppingLevel(taker, book, k, i, j);
    }
  }

  /** Strict time priority survives a match exactly if the taker does not go past one of its
      own orders and stop within that order's price level. */
  lemma OwnOrdersKeepPlaceIff(taker: Row, book: seq<Row>)
    requires SideOk(taker.side.Opposite(), book)
    ensures (AfterMatch(taker, book) == Match(taker, book).skipped + Match(taker, book).rest)
       <==> !exists i, j :: Overtakes(taker, book, i, j)
  {
    SkippedKeepPlaceIff(taker, book);
    var k := MatchLeavesSideOk(taker.side.Opposite(), taker, book);
    forall i | 0 <= i < |book| ensures GoesPast(taker, book, i) <==> i < k { GoesPastIff(taker, book, i); }
    StoppingPrice(taker, book, k);
    PlaceTest(taker, book, k, Match(taker, book).skipped);
  }

  /** Every trade is with a resting order, and no two with the same. */
  ghost predicate OncePerMaker(ts: seq<Trade>, book: seq<Row>) {
    && (forall i, j | 0 <= i < j < |ts| :: ts[i].makerOrder != ts[j].makerOrder)
    && (forall t | t in ts :: HasId(book, t.makerOrder))
  }

  lemma LaterIds(book: seq<Row>)
    requires DistinctIds(book) && book != []
    ensures DistinctIds(book[1..]) && HasId(book, book[0].id)
    ensures forall id | HasId(book[1..], id) :: HasId(book, id) && id != book[0].id
  {
    forall id | HasId(book[1..], id) ensures HasId(book, id) && id != book[0].id {
      var i :| 0 <= i < |book[1..]| && book[1..][i].id == id;
      assert book[i + 1].id == id;
    }
  }

  lemma SameMakers(ts: seq<Trade>, book: seq<Row>)
    requires DistinctIds(book) && book != [] && OncePerMaker(ts, book[1..])
    ensures OncePerMaker(ts, book)
  {
    LaterIds(book);
  }

  lemma OneMoreMaker(t: Trade, ts: seq<Trade>, book: seq<Row>)
    requires DistinctIds(book) && book != [] && t.makerOrder == book[0].id && OncePerMaker(ts, book[1..])
    ensures OncePerMaker([t] + ts, book)
  {
    LaterIds(book);
    forall i | 0 < i < |[t] + ts| ensures ([t] + ts)[i] == ts[i - 1] && ts[i - 1] in ts { }
  }

  /** No maker trades twice with the same taker. */
  lemma {:induction false} MakersTradeOnce(taker: Row, book: seq<Row>)
    requires DistinctIds(book)
    ensures OncePerMaker(Match(taker, book).trades, book)
    decreases |book|
  {
    if !Stops(taker, book) {
      LaterIds(book);
      if taker.user == book[0].user {
        MakersTradeOnce(taker, book[1..]);
        SameMakers(Match(taker, book[1..]).trades, book);
      } else {
        var q := Min(taker.Remaining(), book[0].Remaining());
        var t := TradeOf(taker, book[0], q);
        if FillMaker(book[0], q).Remaining() <= 0.0 {
          var taker' := taker.(filled := taker.filled + q);
          MakersTradeOnce(taker', book[1..]);
          OneMoreMaker(t, Match(taker', book[1..]).trades, book);
        } else {
          OneMoreMaker(t, [], book);
        }
      }
    }
  }
}
