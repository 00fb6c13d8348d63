/**
 * The points ledger: a wallet's balance against the Earning and Transaction rows written for it.
 * A wallet is balanced when its `totalPoints` is the sum of its earned points minus the sum of its
 * redeemed points, and its `totalAmountRedeemed` is the sum of its redeemed amounts.
 */
module Ledger {
  import opened Schema

  /** Sum of `pointsEarned` over the Earning rows credited to wallet `id`. */
  function Earned(es: seq<Earning>, id: nat): int {
    if es == [] then 0
    else (if es[0].walletId == id then es[0].pointsEarned else 0) + Earned(es[1..], id)
  }

  /** Sum of `pointsRedeemed` over the Transaction rows debited from wallet `id`. */
  function Redeemed(ts: seq<Transaction>, id: nat): int {
    if ts == [] then 0
    else (if ts[0].walletId == id then ts[0].pointsRedeemed else 0) + Redeemed(ts[1..], id)
  }

  /** Sum of `amountRedeemed` over the Transaction rows of wallet `id`. */
  function Paid(ts: seq<Transaction>, id: nat): int {
    if ts == [] then 0
    else (if ts[0].walletId == id then ts[0].amountRedeemed else 0) + Paid(ts[1..], id)
  }

  ghost predicate WalletBalanced(w: Wallet, es: seq<Earning>, ts: seq<Transaction>) {
    && w.totalPoints == Earned(es, w.walletId) - Redeemed(ts, w.walletId)
    && w.totalAmountRedeemed == Paid(ts, w.walletId)
  }

  /** Every wallet is balanced against the audit rows. */
  ghost predicate Balanced(ws: seq<Wallet>, es: seq<Earning>, ts: seq<Transaction>) {
    forall i :: 0 <= i < |ws| ==> WalletBalanced(ws[i], es, ts)
  }

  lemma {:induction false} EarnedAppend(es: seq<Earning>, e: Earning, id: nat)
    ensures Earned(es + [e], id) == Earned(es, id) + (if e.walletId == id then e.pointsEarned else 0)
  {
    if es != [] {
      assert (es + [e])[1..] == es[1..] + [e];
      EarnedAppend(es[1..], e, id);
    }
  }

  lemma {:induction false} RedeemedAppend(ts: seq<Transaction>, t: Transaction, id: nat)
    ensures Redeemed(ts + [t], id) == Redeemed(ts, id) + (if t.walletId == id then t.pointsRedeemed else 0)
    ensures Paid(ts + [t], id) == Paid(ts, id) + (if t.walletId == id then t.amountRedeemed else 0)
  {
    if ts != [] {
      assert (ts + [t])[1..] == ts[1..] + [t];
      RedeemedAppend(ts[1..], t, id);
    }
  }

  /** A wallet id that no row carries has earned, redeemed and been paid nothing. */
  lemma {:induction false} NoRowsNoSums(es: seq<Earning>, ts: seq<Transaction>, id: nat)
    requires forall i :: 0 <= i < |es| ==> es[i].walletId < id
    requires forall i :: 0 <= i < |ts| ==> ts[i].walletId < id
    ensures Earned(es, id) == 0 && Redeemed(ts, id) == 0 && Paid(ts, id) == 0
    decreases |es| + |ts|
  {
    if es != [] {
      NoRowsNoSums(es[1..], [], id);
    }
    if ts != [] {
      NoRowsNoSums([], ts[1..], id);
    }
  }

  /**
   * A redemption keeps the ledger: debiting `points` and crediting `amount` on every wallet row with
   * the redeeming wallet's id, together with one Transaction row for that wallet carrying the same
   * two numbers.
   */
  lemma RedeemKeepsBalance(ws: seq<Wallet>, es: seq<Earning>, ts: seq<Transaction>, t: Transaction)
    requires Balanced(ws, es, ts)
    ensures Balanced(Adjust(ws, t.walletId, -t.pointsRedeemed, t.amountRedeemed), es, ts + [t])
  {
    var ws' := Adjust(ws, t.walletId, -t.pointsRedeemed, t.amountRedeemed);
    forall i | 0 <= i < |ws'| ensures WalletBalanced(ws'[i], es, ts + [t]) {
      assert WalletBalanced(ws[i], es, ts);
      RedeemedAppend(ts, t, ws[i].walletId);
    }
  }

  /** An earning keeps the ledger: one Earning row for a wallet, and its points credited to it. */
  lemma EarnKeepsBalance(ws: seq<Wallet>, es: seq<Earning>, ts: seq<Transaction>, e: Earning)
    requires Balanced(ws, es, ts)
    ensures Balanced(Adjust(ws, e.walletId, e.pointsEarned, 0), es + [e], ts)
  {
    var ws' := Adjust(ws, e.walletId, e.pointsEarned, 0);
    forall i | 0 <= i < |ws'| ensures WalletBalanced(ws'[i], es + [e], ts) {
      assert WalletBalanced(ws[i], es, ts);
      EarnedAppend(es, e, ws[i].walletId);
    }
  }

  /** A new wallet at zero, under an id no audit row carries yet, is balanced. */
  lemma OpenWalletKeepsBalance(ws: seq<Wallet>, es: seq<Earning>, ts: seq<Transaction>, w: Wallet)
    requires Balanced(ws, es, ts)
    requires w.totalPoints == 0 && w.totalAmountRedeemed == 0
    requires forall i :: 0 <= i < |es| ==> es[i].walletId < w.walletId
    requires forall i :: 0 <= i < |ts| ==> ts[i].walletId < w.walletId
    ensures Balanced(ws + [w], es, ts)
  {
    NoRowsNoSums(es, ts, w.walletId);
    assert forall i :: 0 <= i < |ws| ==> (ws + [w])[i] == ws[i];
  }

  /**
   * An Earning row whose points were never credited unbalances its wallet, by exactly those points:
   * the state `addEarning` leaves when its wallet update fails after the insert.
   */
  lemma UncreditedEarningUnbalances(ws: seq<Wallet>, es: seq<Earning>, ts: seq<Transaction>, e: Earning, i: nat)
    requires Balanced(ws, es, ts)
    requires i < |ws| && ws[i].walletId == e.walletId
    ensures Earned(es + [e], e.walletId) - Redeemed(ts, e.walletId) == ws[i].totalPoints + e.pointsEarned
    ensures Balanced(ws, es + [e], ts) <==> e.pointsEarned == 0
  {
    EarnedAppend(es, e, e.walletId);
    assert WalletBalanced(ws[i], es, ts);
    if e.pointsEarned == 0 {
      forall j | 0 <= j < |ws| ensures WalletBalanced(ws[j], es + [e], ts) {
        assert WalletBalanced(ws[j], es, ts);
        EarnedAppend(es, e, ws[j].walletId);
      }
    }
  }
}
