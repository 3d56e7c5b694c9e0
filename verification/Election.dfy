/**
 The choice of one owner per identity among the established rows of a status snapshot:
 the newest connection wins and every other row is evicted.
 */
module Election {
  import opened Basics
  import opened Text
  import opened Snapshots
  import Decimal

  predicate LexGreater(a: string, b: string) {
    if b == "" then a != ""
    else if a == "" then false
    else a[0] > b[0] || (a[0] == b[0] && LexGreater(a[1..], b[1..]))
  }

  /** `newerStatusSession`. */
  predicate Newer(candidate: EstablishedSession, current: EstablishedSession) {
    if candidate.connectedAt != current.connectedAt then candidate.connectedAt > current.connectedAt
    else
      var a, b := Decimal.ParseUint(candidate.cid), Decimal.ParseUint(current.cid);
      if a.Some? && b.Some? then a.value > b.value else LexGreater(candidate.cid, current.cid)
  }

  predicate Valid(r: EstablishedSession) {
    NormalizeIdentity(r.cn).Some?
  }

  function Identity(r: EstablishedSession): string
    requires Valid(r)
  {
    NormalizeIdentity(r.cn).value
  }

  datatype Outcome = Outcome(winners: map<string, EstablishedSession>, evictions: seq<string>)

  function Ballot(o: Outcome, r: EstablishedSession): Outcome {
    if !Valid(r) then o
    else
      var i := Identity(r);
      if i !in o.winners then o.(winners := o.winners[i := r])
      else if Newer(r, o.winners[i]) then Outcome(o.winners[i := r], o.evictions + [o.winners[i].cid])
      else o.(evictions := o.evictions + [r.cid])
  }

  function Elect(rows: seq<EstablishedSession>): Outcome {
    if rows == [] then Outcome(map[], [])
    else Ballot(Elect(rows[..|rows| - 1]), rows[|rows| - 1])
  }

  // ----- what holds for every list of rows with distinct CIDs -----

  ghost predicate Standing(rows: seq<EstablishedSession>, i: string) {
    exists r :: r in rows && Valid(r) && Identity(r) == i
  }

  predicate Wins(o: Outcome, r: EstablishedSession)
    requires Valid(r)
  {
    Identity(r) in o.winners && o.winners[Identity(r)] == r
  }

  /** The winners are rows of their own identity, and every identity standing has one. */
  ghost predicate OneWinnerEach(rows: seq<EstablishedSession>, o: Outcome) {
    && (forall i :: i in o.winners <==> Standing(rows, i))
    && (forall i :: i in o.winners ==> o.winners[i] in rows && Valid(o.winners[i]) && Identity(o.winners[i]) == i)
  }

  /** The number of times a row is evicted: once if it is valid and lost, otherwise never. */
  ghost predicate LosersOnce(rows: seq<EstablishedSession>, o: Outcome) {
    && (forall r :: r in rows && Valid(r) ==> multiset(o.evictions)[r.cid] == if Wins(o, r) then 0 else 1)
    && (forall c :: c in o.evictions ==> exists r :: r in rows && Valid(r) && r.cid == c)
  }

  /** The valid rows split exactly into one winner per identity and losers evicted once each. */
  lemma {:induction false} ElectPartitions(rows: seq<EstablishedSession>)
    requires DistinctSessions(rows)
    ensures OneWinnerEach(rows, Elect(rows)) && LosersOnce(rows, Elect(rows))
  {
    if rows != [] {
      var init, last := rows[..|rows| - 1], rows[|rows| - 1];
      ElectPartitions(init);
      assert rows == init + [last];
      BallotWinners(init, last, Elect(init));
      BallotLosers(init, last, Elect(init));
    }
  }

  lemma BallotWinners(init: seq<EstablishedSession>, last: EstablishedSession, o: Outcome)
    requires OneWinnerEach(init, o)
    ensures OneWinnerEach(init + [last], Ballot(o, last))
  {
    hide Newer, Valid, Identity;
    var rows := init + [last];
    assert forall r :: r in rows <==> r in init || r == last;
    forall i
      ensures Standing(rows, i) <==> Standing(init, i) || (Valid(last) && Identity(last) == i)
    {
    }
  }

  lemma BallotLosers(init: seq<EstablishedSession>, last: EstablishedSession, o: Outcome)
    requires OneWinnerEach(init, o) && LosersOnce(init, o)
    requires DistinctSessions(init + [last])
    ensures LosersOnce(init + [last], Ballot(o, last))
  {
    hide Newer, Valid, Identity;
    var rows, p := init + [last], Ballot(o, last);
    assert DistinctSessions(init) by {
      assert forall k :: 0 <= k < |init| ==> rows[k] == init[k];
    }
    forall r | r in init
      ensures r.cid != last.cid
    {
      var k :| 0 <= k < |init| && init[k] == r;
      assert rows[k] == r && rows[|init|] == last;
    }
    assert last.cid !in o.evictions;
    forall r | r in rows && Valid(r)
      ensures multiset(p.evictions)[r.cid] == if Wins(p, r) then 0 else 1
    {
      if r in init && Valid(last) && Identity(last) in o.winners {
        SameCidSameRow(init, r, o.winners[Identity(last)]);
      }
    }
    forall c | c in p.evictions
      ensures exists r :: r in rows && Valid(r) && r.cid == c
    {
      if c in o.evictions {
        var r :| r in init && Valid(r) && r.cid == c;
        assert r in rows;
      } else {
        assert last in rows;
        assert Identity(last) in o.winners && o.winners[Identity(last)] in rows;
      }
    }
  }

  lemma SameCidSameRow(rows: seq<EstablishedSession>, a: EstablishedSession, b: EstablishedSession)
    requires DistinctSessions(rows) && a in rows && b in rows
    ensures a.cid == b.cid ==> a == b
  {
  }

  // ----- canonical CIDs: newest wins, in any order of the rows -----

  ghost predicate CanonicalRows(rows: seq<EstablishedSession>) {
    DistinctSessions(rows) && forall r :: r in rows ==> Decimal.Canonical(r.cid)
  }

  /** On canonical CIDs, the comparison is a strict total order. */
  lemma NewerIsStrictOrder(a: EstablishedSession, b: EstablishedSession, c: EstablishedSession)
    requires Decimal.Canonical(a.cid) && Decimal.Canonical(b.cid) && Decimal.Canonical(c.cid)
    ensures !(Newer(a, b) && Newer(b, a))
    ensures a.cid != b.cid ==> Newer(a, b) || Newer(b, a)
    ensures Newer(a, b) && Newer(b, c) ==> Newer(a, c)
  {
    if Decimal.Value(a.cid) == Decimal.Value(b.cid) {
      Decimal.CanonicalInjective(a.cid, b.cid);
    }
  }

  /** Without canonical CIDs it is not: three rows beat each other in a circle. */
  lemma NewerCanCycle()
    ensures var a, b, c := EstablishedSession("10", "u", 0), EstablishedSession("9", "u", 0),
        EstablishedSession("1x", "u", 0);
            Newer(a, b) && Newer(b, c) && Newer(c, a)
  {
    assert Decimal.Value("1") == 1 by { assert "1"[..0] == ""; }
    assert Decimal.Value("10") == 10 by { assert "10"[..1] == "1"; }
    assert Decimal.Value("9") == 9 by { assert "9"[..0] == ""; }
    assert "1x"[1] == 'x' && !Decimal.AllDigits("1x");
    assert "1x"[1..] == "x" && "10"[1..] == "0";
    assert LexGreater("x", "0");
    assert LexGreater("1x", "10");
    assert LexGreater("9", "1x");
  }

  lemma {:induction false} LexIsStrictOrder(a: string, b: string, c: string)
    ensures !(LexGreater(a, b) && LexGreater(b, a))
    ensures a != b ==> LexGreater(a, b) || LexGreater(b, a)
    ensures LexGreater(a, b) && LexGreater(b, c) ==> LexGreater(a, c)
    decreases |a| + |b| + |c|
  {
    if a != "" && b != "" {
      assert a[0] == b[0] && a[1..] == b[1..] ==> a == [a[0]] + a[1..] == [b[0]] + b[1..] == b;
      LexIsStrictOrder(a[1..], b[1..], if c == "" then "" else c[1..]);
    }
  }

  predicate Numeral(r: EstablishedSession) {
    Decimal.ParseUint(r.cid).Some?
  }

  /**
   `a` and `b` are numerals, `c` is not, and `c` lies between them in the alphabet, against their order as numbers.
   */
  predicate Wedged(a: EstablishedSession, b: EstablishedSession, c: EstablishedSession) {
    && Numeral(a) && Numeral(b) && !Numeral(c)
    && Decimal.ParseUint(a.cid).value > Decimal.ParseUint(b.cid).value
    && LexGreater(b.cid, c.cid) && LexGreater(c.cid, a.cid)
  }

  /**
   Three rows beat each other in a circle exactly when they connected together and one is wedged between the others.
   */
  lemma NewerCyclesIff(a: EstablishedSession, b: EstablishedSession, c: EstablishedSession)
    ensures Newer(a, b) && Newer(b, c) && Newer(c, a) <==>
              && a.connectedAt == b.connectedAt == c.connectedAt
              && (Wedged(a, b, c) || Wedged(b, c, a) || Wedged(c, a, b))
  {
    hide Decimal.ParseUint;
    LexIsStrictOrder(a.cid, b.cid, c.cid);
    LexIsStrictOrder(b.cid, c.cid, a.cid);
    LexIsStrictOrder(c.cid, a.cid, b.cid);
    LexIsStrictOrder(a.cid, c.cid, a.cid);
    LexIsStrictOrder(b.cid, a.cid, b.cid);
    LexIsStrictOrder(c.cid, b.cid, c.cid);
  }

  /** Neither of two rows is newer exactly when they connected together and have one CID, or numerals of one value. */
  lemma NewerTiesIff(a: EstablishedSession, b: EstablishedSession)
    ensures !Newer(a, b) && !Newer(b, a) <==>
              && a.connectedAt == b.connectedAt
              && (a.cid == b.cid || (Numeral(a) && Numeral(b) && Decimal.ParseUint(a.cid) == Decimal.ParseUint(b.cid)))
    ensures !(Newer(a, b) && Newer(b, a))
  {
    hide Decimal.ParseUint;
    LexIsStrictOrder(a.cid, b.cid, a.cid);
  }

  /** "1" and "01" tie: the row listed first wins. */
  lemma NewerCanTie()
    ensures var a, b := EstablishedSession("1", "u", 0), EstablishedSession("01", "u", 0);
            !Newer(a, b) && !Newer(b, a) && a != b
  {
    assert Decimal.Value("0") == 0 by { assert "0"[..0] == ""; }
    assert Decimal.Value("1") == 1 by { assert "1"[..0] == ""; }
    assert Decimal.Value("01") == 1 by { assert "01"[..1] == "0"; }
  }

  /** A row is beaten when a newer row of the same identity is listed. */
  ghost predicate Beaten(rows: seq<EstablishedSession>, r: EstablishedSession)
    requires Valid(r)
  {
    exists s :: s in rows && Valid(s) && Identity(s) == Identity(r) && Newer(s, r)
  }

  /** The winner of an identity is newer than every other row of that identity. */
  ghost predicate Dominates(rows: seq<EstablishedSession>, o: Outcome) {
    forall r :: r in rows && Valid(r) ==>
      Identity(r) in o.winners && (Wins(o, r) || Newer(o.winners[Identity(r)], r))
  }

  lemma {:induction false} WinnersDominate(rows: seq<EstablishedSession>)
    requires CanonicalRows(rows)
    ensures Dominates(rows, Elect(rows))
  {
    if rows != [] {
      var init, last := rows[..|rows| - 1], rows[|rows| - 1];
      assert rows == init + [last];
      assert CanonicalRows(init) by {
        assert forall r :: r in init ==> r in rows;
      }
      WinnersDominate(init);
      ElectPartitions(init);
      forall r | r in init
        ensures r.cid != last.cid && Decimal.Canonical(r.cid)
      {
        var k :| 0 <= k < |init| && init[k] == r;
        assert rows[k] == r && r in rows;
      }
      assert last in rows;
      BallotDominates(init, last, Elect(init));
    }
  }

  lemma BallotDominates(init: seq<EstablishedSession>, last: EstablishedSession, o: Outcome)
    requires OneWinnerEach(init, o) && Dominates(init, o)
    requires Decimal.Canonical(last.cid) && forall r :: r in init ==> r.cid != last.cid && Decimal.Canonical(r.cid)
    ensures Dominates(init + [last], Ballot(o, last))
  {
    hide Newer, Valid, Identity, Decimal.Canonical;
    var rows, p := init + [last], Ballot(o, last);
    forall r | r in rows && Valid(r)
      ensures Identity(r) in p.winners && (Wins(p, r) || Newer(p.winners[Identity(r)], r))
    {
      var i := Identity(r);
      assert r in init || r == last;
      if Valid(last) && Identity(last) == i && i in o.winners {
        var w := o.winners[i];
        NewerIsStrictOrder(w, last, r);
        NewerIsStrictOrder(last, w, r);
      }
    }
  }

  /** Winning is the same as being valid, listed and unbeaten; no order of the rows is involved. */
  lemma WinsIffUnbeaten(rows: seq<EstablishedSession>, r: EstablishedSession)
    requires CanonicalRows(rows) && r in rows && Valid(r)
    ensures Wins(Elect(rows), r) <==> !Beaten(rows, r)
  {
    hide Newer, Valid, Identity, Decimal.Canonical;
    WinnersDominate(rows);
    ElectPartitions(rows);
    var w := Elect(rows).winners[Identity(r)];
    if w == r && Beaten(rows, r) {
      var s :| s in rows && Valid(s) && Identity(s) == Identity(r) && Newer(s, r);
      NewerIsStrictOrder(r, s, r);
    }
  }

  /** The winner connected last; of rows that connected together it has the greatest number. */
  lemma WinnerIsNewest(rows: seq<EstablishedSession>, r: EstablishedSession)
    requires CanonicalRows(rows) && r in rows && Valid(r)
    ensures Identity(r) in Elect(rows).winners
    ensures var w := Elect(rows).winners[Identity(r)];
            && w in rows && Valid(w) && Identity(w) == Identity(r)
            && w.connectedAt >= r.connectedAt
            && (w.connectedAt == r.connectedAt && w != r ==> Decimal.Value(w.cid) > Decimal.Value(r.cid))
  {
    hide Valid, Identity, Elect;
    WinnersDominate(rows);
    ElectPartitions(rows);
    var w := Elect(rows).winners[Identity(r)];
    assert Decimal.Canonical(w.cid) && Decimal.Canonical(r.cid);
  }

  /** The order of the snapshot rows changes neither the owners nor what is evicted, nor how often. */
  lemma ElectionOrderIrrelevant(rows: seq<EstablishedSession>, rows': seq<EstablishedSession>)
    requires CanonicalRows(rows) && DistinctSessions(rows') && multiset(rows) == multiset(rows')
    ensures Elect(rows').winners == Elect(rows).winners
    ensures multiset(Elect(rows').evictions) == multiset(Elect(rows).evictions)
  {
    hide Newer, Valid, Identity, Decimal.Canonical;
    var o, o' := Elect(rows), Elect(rows');
    forall r
      ensures r in rows <==> r in rows'
    {
      assert r in rows <==> r in multiset(rows);
      assert r in rows' <==> r in multiset(rows');
    }
    ElectPartitions(rows);
    ElectPartitions(rows');
    forall r | r in rows && Valid(r)
      ensures Wins(o, r) <==> Wins(o', r)
    {
      WinsIffUnbeaten(rows, r);
      WinsIffUnbeaten(rows', r);
    }
    SameOutcome(rows, rows', o, o');
  }

  lemma SameOutcome(rows: seq<EstablishedSession>, rows': seq<EstablishedSession>, o: Outcome, o': Outcome)
    requires OneWinnerEach(rows, o) && LosersOnce(rows, o) && OneWinnerEach(rows', o') && LosersOnce(rows', o')
    requires forall r :: r in rows <==> r in rows'
    requires forall r :: r in rows && Valid(r) ==> (Wins(o, r) <==> Wins(o', r))
    ensures o'.winners == o.winners && multiset(o'.evictions) == multiset(o.evictions)
  {
    hide Newer, Valid, Identity, Decimal.Canonical;
    forall i | i in o.winners
      ensures i in o'.winners && o.winners[i] == o'.winners[i]
    {
      assert Wins(o, o.winners[i]);
    }
    forall i | i in o'.winners
      ensures i in o.winners
    {
      assert Wins(o', o'.winners[i]);
    }
    forall c
      ensures multiset(o.evictions)[c] == multiset(o'.evictions)[c]
    {
      if c in o.evictions {
        var r :| r in rows && Valid(r) && r.cid == c;
      } else if c in o'.evictions {
        var r :| r in rows' && Valid(r) && r.cid == c;
      }
    }
  }
}
