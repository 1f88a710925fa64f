/**
 * What a draw owes the players: every winning ticket earns its tier's amount for the player
 * holding it, and the earnings are summed per player, one credit per winning player in the
 * order the players first appear among the winning tickets.
 */
module Credits {
  import opened Entities
  import opened Models
  import opened Sequences
  import Money

  /** An amount owed to a player. */
  datatype Credit = Credit(player: PlayerId, amount: real)

  /** One share per winning ticket of a tier: the ticket's player and the tier's amount. */
  function TicketShares(won: seq<Ticket>, amount: real): (r: seq<Credit>)
    ensures |r| == |won|
    ensures forall j :: 0 <= j < |won| ==> r[j] == Credit(won[j].playerId, amount)
  {
    seq(|won|, j requires 0 <= j < |won| => Credit(won[j].playerId, amount))
  }

  /** The shares of every winning ticket, tier after tier (the flattening of the tier results). */
  function WinningShares(entries: seq<TierEntry>): seq<Credit> {
    if entries == [] then []
    else
      var last := entries[|entries| - 1].result;
      WinningShares(entries[..|entries| - 1]) + TicketShares(last.ticketsWon, last.revenuePerTicket)
  }

  /** The players the credits go to, in order. */
  function Payees(credits: seq<Credit>): (r: seq<PlayerId>)
    ensures |r| == |credits|
    ensures forall j :: 0 <= j < |r| ==> r[j] == credits[j].player
  {
    seq(|credits|, j requires 0 <= j < |credits| => credits[j].player)
  }

  /** What the credits add up to for player `p`. */
  function Total(credits: seq<Credit>, p: PlayerId): real {
    if credits == [] then 0.0
    else
      var last := credits[|credits| - 1];
      Total(credits[..|credits| - 1], p) + (if last.player == p then last.amount else 0.0)
  }

  /** What the credits add up to. */
  function SumAmounts(credits: seq<Credit>): real {
    if credits == [] then 0.0
    else SumAmounts(credits[..|credits| - 1]) + credits[|credits| - 1].amount
  }

  /** One credit per player of `ps`, holding that player's total of `shares`. */
  function CreditsFor(ps: seq<PlayerId>, shares: seq<Credit>): (r: seq<Credit>)
    ensures |r| == |ps|
    ensures forall j :: 0 <= j < |ps| ==> r[j] == Credit(ps[j], Total(shares, ps[j]))
  {
    if ps == [] then []
    else
      var last := ps[|ps| - 1];
      CreditsFor(ps[..|ps| - 1], shares) + [Credit(last, Total(shares, last))]
  }

  /**
   * The grouping of the winning tickets by player: each distinct player holding a winning
   * ticket, in order of first appearance, with the sum of what that player's tickets earned.
   */
  function PlayerCredits(entries: seq<TierEntry>): (r: seq<Credit>)
    // one credit per player, in the order the players first appear among the winning tickets
    ensures forall i, j :: 0 <= i < j < |r| ==> r[i].player != r[j].player
  {
    var shares := WinningShares(entries);
    var ps := ExceptFrom(Payees(shares), {});
    var r := CreditsFor(ps, shares);
    assert Payees(r) == ps;
    r
  }

  /** The credits follow the order in which their players first hold a winning ticket. */
  lemma CreditOrder(entries: seq<TierEntry>)
    ensures IsSubsequence(Payees(PlayerCredits(entries)), Payees(WinningShares(entries)))
    ensures FirstOrder(Payees(PlayerCredits(entries)), Payees(WinningShares(entries)))
  {
    var shares := WinningShares(entries);
    assert Payees(PlayerCredits(entries)) == ExceptFrom(Payees(shares), {});
    ExceptFromFirstOrder(Payees(shares), {});
  }

  // ----- An independent account of what each player earns -----

  /** How many of the tickets player `p` holds. */
  function Owned(tickets: seq<Ticket>, p: PlayerId): nat {
    if tickets == [] then 0
    else Owned(tickets[..|tickets| - 1], p) + (if tickets[|tickets| - 1].playerId == p then 1 else 0)
  }

  /** Tier by tier, the winning tickets player `p` holds times what each of them earns. */
  function Earned(entries: seq<TierEntry>, p: PlayerId): real {
    if entries == [] then 0.0
    else
      var last := entries[|entries| - 1].result;
      Earned(entries[..|entries| - 1], p) + Owned(last.ticketsWon, p) as real * last.revenuePerTicket
  }

  /** The players holding a winning ticket. */
  function WinnerIds(entries: seq<TierEntry>): set<PlayerId> {
    set t | t in WonTickets(entries) :: t.playerId
  }

  // ----- Lemmas -----

  /** Totals and sums split over a concatenation. */
  lemma {:induction false} TotalAppend(a: seq<Credit>, b: seq<Credit>, p: PlayerId)
    ensures Total(a + b, p) == Total(a, p) + Total(b, p)
    ensures SumAmounts(a + b) == SumAmounts(a) + SumAmounts(b)
    decreases |b|
  {
    if b != [] {
      var b', last := b[..|b| - 1], b[|b| - 1];
      assert (a + b)[..|a + b| - 1] == a + b';
      assert (a + b)[|a + b| - 1] == last;
      TotalAppend(a, b', p);
    } else {
      assert a + b == a;
    }
  }

  /** The shares of one tier give a player its owned winning tickets times the amount. */
  lemma {:induction false} TicketSharesTotal(won: seq<Ticket>, amount: real, p: PlayerId)
    ensures Total(TicketShares(won, amount), p) == Owned(won, p) as real * amount
  {
    if won != [] {
      var w' := won[..|won| - 1];
      var s := TicketShares(won, amount);
      assert s[..|s| - 1] == TicketShares(w', amount);
      TicketSharesTotal(w', amount, p);
      Money.AddOneTimes(Owned(w', p) as real, amount);
    }
  }

  /** The shares of one tier sum to the tier's payout. */
  lemma {:induction false} TicketSharesSum(won: seq<Ticket>, amount: real)
    ensures SumAmounts(TicketShares(won, amount)) == |won| as real * amount
  {
    if won != [] {
      var w' := won[..|won| - 1];
      var s := TicketShares(won, amount);
      assert s[..|s| - 1] == TicketShares(w', amount);
      TicketSharesSum(w', amount);
      Money.AddOneTimes(|w'| as real, amount);
    }
  }

  /** A player's total over all winning shares is what the player's winning tickets earned. */
  lemma {:induction false} TotalIsEarned(entries: seq<TierEntry>, p: PlayerId)
    ensures Total(WinningShares(entries), p) == Earned(entries, p)
  {
    if entries != [] {
      var init, last := entries[..|entries| - 1], entries[|entries| - 1].result;
      var a, b := WinningShares(init), TicketShares(last.ticketsWon, last.revenuePerTicket);
      var x := Owned(last.ticketsWon, p) as real * last.revenuePerTicket;
      assert Earned(entries, p) == Earned(init, p) + x;
      assert WinningShares(entries) == a + b;
      assert Total(b, p) == x by {
        TicketSharesTotal(last.ticketsWon, last.revenuePerTicket, p);
      }
      assert Total(a, p) == Earned(init, p) by {
        TotalIsEarned(init, p);
      }
      TotalAppend(a, b, p);
    }
  }

  /** The winning shares add up to what the tiers pay out. */
  lemma {:induction false} SharesSumToWinnings(entries: seq<TierEntry>)
    ensures SumAmounts(WinningShares(entries)) == Winnings(entries)
  {
    if entries != [] {
      var init, last := entries[..|entries| - 1], entries[|entries| - 1].result;
      var a, b := WinningShares(init), TicketShares(last.ticketsWon, last.revenuePerTicket);
      assert Winnings(entries) == Winnings(init) + Payout(entries[|entries| - 1]);
      assert WinningShares(entries) == a + b;
      assert SumAmounts(b) == Payout(entries[|entries| - 1]) by {
        TicketSharesSum(last.ticketsWon, last.revenuePerTicket);
      }
      assert SumAmounts(a) == Winnings(init) by {
        SharesSumToWinnings(init);
      }
      TotalAppend(a, b, 0);
    }
  }

  /** A player receives a share exactly when the player holds a winning ticket. */
  lemma {:induction false} SharePayees(entries: seq<TierEntry>)
    ensures forall p :: p in Payees(WinningShares(entries)) <==> p in WinnerIds(entries)
  {
    if entries != [] {
      var init, last := entries[..|entries| - 1], entries[|entries| - 1].result;
      SharePayees(init);
      var a, b := WinningShares(init), TicketShares(last.ticketsWon, last.revenuePerTicket);
      assert Payees(a + b) == Payees(a) + Payees(b);
      forall p ensures p in Payees(b) <==> exists t :: t in last.ticketsWon && t.playerId == p {
        if p in Payees(b) {
          var j :| 0 <= j < |b| && Payees(b)[j] == p;
          assert last.ticketsWon[j] in last.ticketsWon;
        }
      }
    }
  }

  /** Adding one share to the grouped credits of distinct players adds its amount when its player is among them. */
  lemma {:induction false} CreditsForSnoc(ps: seq<PlayerId>, shares: seq<Credit>, c: Credit)
    requires forall i, j :: 0 <= i < j < |ps| ==> ps[i] != ps[j]
    ensures SumAmounts(CreditsFor(ps, shares + [c]))
         == SumAmounts(CreditsFor(ps, shares)) + (if c.player in ps then c.amount else 0.0)
  {
    if ps != [] {
      var init, q := ps[..|ps| - 1], ps[|ps| - 1];
      CreditsForSnoc(init, shares, c);
      assert (shares + [c])[..|shares|] == shares;
      assert c.player in ps <==> c.player in init || c.player == q;
      assert q !in init;
    }
  }

  /** The credits of distinct players that cover every share add up to the shares. */
  lemma {:induction false} CreditsForSum(ps: seq<PlayerId>, shares: seq<Credit>)
    requires forall i, j :: 0 <= i < j < |ps| ==> ps[i] != ps[j]
    requires forall c :: c in shares ==> c.player in ps
    ensures SumAmounts(CreditsFor(ps, shares)) == SumAmounts(shares)
  {
    if shares == [] {
      CreditsForZero(ps);
    } else {
      var init, c := shares[..|shares| - 1], shares[|shares| - 1];
      assert shares == init + [c];
      CreditsForSum(ps, init);
      CreditsForSnoc(ps, init, c);
    }
  }

  /** With no shares, every credit is zero. */
  lemma {:induction false} CreditsForZero(ps: seq<PlayerId>)
    ensures SumAmounts(CreditsFor(ps, [])) == 0.0
  {
    if ps != [] {
      CreditsForZero(ps[..|ps| - 1]);
    }
  }

  /** The grouped credits go to exactly the players holding a winning ticket, once each. */
  lemma CreditPayees(entries: seq<TierEntry>)
    ensures var cs := PlayerCredits(entries);
      && (forall p :: p in Payees(cs) <==> p in WinnerIds(entries))
      && (forall i, j :: 0 <= i < j < |cs| ==> cs[i].player != cs[j].player)
  {
    var shares := WinningShares(entries);
    var ps := ExceptFrom(Payees(shares), {});
    var cs := PlayerCredits(entries);
    assert Payees(cs) == ps;
    SharePayees(entries);
  }

  /** Each grouped credit is what that player's winning tickets earned. */
  lemma CreditAmounts(entries: seq<TierEntry>)
    ensures var cs := PlayerCredits(entries);
      forall j :: 0 <= j < |cs| ==> cs[j].amount == Earned(entries, cs[j].player)
  {
    var cs := PlayerCredits(entries);
    forall j | 0 <= j < |cs| ensures cs[j].amount == Earned(entries, cs[j].player) {
      TotalIsEarned(entries, cs[j].player);
    }
  }

  /** The grouped credits add up to what the tiers pay out. */
  lemma CreditsSumToWinnings(entries: seq<TierEntry>)
    ensures SumAmounts(PlayerCredits(entries)) == Winnings(entries)
  {
    var shares := WinningShares(entries);
    var ps := ExceptFrom(Payees(shares), {});
    forall c | c in shares ensures c.player in ps {
      var j :| 0 <= j < |shares| && shares[j] == c;
      assert Payees(shares)[j] == c.player;
    }
    CreditsForSum(ps, shares);
    SharesSumToWinnings(entries);
  }

  /**
   * Player 7 wins the first tier's only ticket at 5.00 and one of the second tier's two tickets
   * at 2.00; player 8 wins the other: player 7 is credited 7.00 first, then player 8 2.00.
   */
  lemma PlayerCreditsExample()
    ensures PlayerCredits([
      TierEntry(0, TierResult([Ticket(1, 0, 7)], 5.0)),
      TierEntry(1, TierResult([Ticket(2, 0, 8), Ticket(3, 0, 7)], 2.0))])
      == [Credit(7, 7.0), Credit(8, 2.0)]
  {
    var e0 := TierEntry(0, TierResult([Ticket(1, 0, 7)], 5.0));
    var e1 := TierEntry(1, TierResult([Ticket(2, 0, 8), Ticket(3, 0, 7)], 2.0));
    var es := [e0, e1];
    assert es[..1] == [e0];
    assert [e0][..0] == [];
    var a := TicketShares([Ticket(1, 0, 7)], 5.0);
    var b := TicketShares([Ticket(2, 0, 8), Ticket(3, 0, 7)], 2.0);
    assert a == [Credit(7, 5.0)];
    assert b == [Credit(8, 2.0), Credit(7, 2.0)];
    assert WinningShares([e0]) == WinningShares([]) + a;
    var shares := WinningShares(es);
    assert shares == a + b;
    assert shares == [Credit(7, 5.0), Credit(8, 2.0), Credit(7, 2.0)];
    assert Payees(shares) == [7, 8, 7];
    var ps := ExceptFrom([7, 8, 7], {});
    assert ps == [7, 8] by {
      assert [7, 8, 7][1..] == [8, 7];
      assert [8, 7][1..] == [7];
      assert [7][1..] == [];
    }
    var s1, s2 := [Credit(7, 5.0)], [Credit(7, 5.0), Credit(8, 2.0)];
    assert shares[..2] == s2 && s2[..1] == s1 && s1[..0] == [];
    assert Total(s1, 7) == 5.0 && Total(s1, 8) == 0.0;
    assert Total(s2, 7) == 5.0 && Total(s2, 8) == 2.0;
    assert Total(shares, 7) == 7.0 && Total(shares, 8) == 2.0;
    assert [7, 8][..1] == [7];
  }
}
