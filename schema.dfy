/** The rows of the User, Wallet, Earning and Transaction tables, and the row-level SQL the handlers issue. */
module Schema {
  import opened Ordering

  datatype Option<T> = None | Some(value: T)

  /** A User row; `None` stands for SQL `NULL`, `password` holds the bcrypt hash. */
  datatype User = User(
    id: nat, name: string, email: string, phone: string, dob: Option<string>, gender: Option<string>,
    profileImage: string, password: string, accountDetailsId: Option<nat>, createdAt: nat)

  datatype Wallet = Wallet(walletId: nat, userId: nat, totalPoints: int, totalAmountRedeemed: int)

  datatype Earning = Earning(
    earningId: nat, userId: nat, walletId: nat, adId: string, adDuration: Option<int>,
    pointsEarned: int, createdAt: nat)

  datatype Transaction = Transaction(
    transactionId: nat, userId: nat, walletId: nat, pointsRedeemed: int, amountRedeemed: int,
    status: string, createdAt: nat)

  /** The only status the direct redemption writes. */
  const Completed := "COMPLETED"

  // Column accessors, used as the key of a `WHERE column = ?` or an `ORDER BY column`.
  function UserId(u: User): nat { u.id }
  function UserEmail(u: User): string { u.email }
  function WalletKey(w: Wallet): nat { w.walletId }
  function WalletOwner(w: Wallet): nat { w.userId }
  function EarningKey(e: Earning): nat { e.earningId }
  function EarningOwner(e: Earning): nat { e.userId }
  function EarningTime(e: Earning): nat { e.createdAt }
  function TransactionKey(t: Transaction): nat { t.transactionId }
  function TransactionOwner(t: Transaction): nat { t.userId }
  function TransactionTime(t: Transaction): nat { t.createdAt }

  /** `SELECT * ... WHERE column = k`: the matching rows, in table order. */
  function Where<T, K(==)>(s: seq<T>, key: T -> K, k: K): (r: seq<T>)
    ensures |r| <= |s|
    ensures forall i :: 0 <= i < |r| ==> key(r[i]) == k
    ensures forall i :: 0 <= i < |s| && key(s[i]) == k ==> s[i] in r
  {
    if s == [] then []
    else
      assert s == [s[0]] + s[1..];
      (if key(s[0]) == k then [s[0]] else []) + Where(s[1..], key, k)
  }

  /** A selection takes rows from the table and nothing else, each no more often than the table has it. */
  lemma {:induction false} WhereSubset<T, K>(s: seq<T>, key: T -> K, k: K)
    ensures multiset(Where(s, key, k)) <= multiset(s)
  {
    if s != [] {
      WhereSubset(s[1..], key, k);
      assert s == [s[0]] + s[1..];
    }
  }

  /** A key the table holds in increasing order selects at most one row. */
  lemma {:induction false} WhereKeyUnique<T>(s: seq<T>, key: T -> nat, k: nat)
    requires Increasing(s, key)
    ensures |Where(s, key, k)| <= 1
  {
    if s != [] {
      assert Increasing(s[1..], key) by {
        forall i, j | 0 <= i < j < |s[1..]| ensures key(s[1..][i]) < key(s[1..][j]) {
          assert s[1..][i] == s[i + 1] && s[1..][j] == s[j + 1];
        }
      }
      if key(s[0]) == k {
        forall j | 0 <= j < |s[1..]| ensures key(s[1..][j]) != k {
          assert s[1..][j] == s[j + 1];
        }
        WhereNone(s[1..], key, k);
      } else {
        WhereKeyUnique(s[1..], key, k);
      }
    }
  }

  /** A key no two rows share selects at most one row. */
  lemma {:induction false} WhereDistinct<T, K>(s: seq<T>, key: T -> K, k: K)
    requires forall i, j :: 0 <= i < j < |s| ==> key(s[i]) != key(s[j])
    ensures |Where(s, key, k)| <= 1
  {
    if s != [] {
      var t := s[1..];
      assert forall i, j :: 0 <= i < j < |t| ==> key(t[i]) != key(t[j]) by {
        forall i, j | 0 <= i < j < |t| ensures key(t[i]) != key(t[j]) {
          assert t[i] == s[i + 1] && t[j] == s[j + 1];
        }
      }
      if key(s[0]) == k {
        forall j | 0 <= j < |t| ensures key(t[j]) != k {
          assert t[j] == s[j + 1];
        }
        WhereNone(t, key, k);
      } else {
        WhereDistinct(t, key, k);
      }
    }
  }

  lemma {:induction false} WhereNone<T, K>(s: seq<T>, key: T -> K, k: K)
    requires forall j :: 0 <= j < |s| ==> key(s[j]) != k
    ensures Where(s, key, k) == []
  {
    if s != [] {
      WhereNone(s[1..], key, k);
    }
  }

  /** `DELETE ... WHERE column = k`: the rows that remain, in table order. */
  function Except<T, K(==)>(s: seq<T>, key: T -> K, k: K): (r: seq<T>)
    ensures |r| <= |s|
    ensures forall i :: 0 <= i < |r| ==> key(r[i]) != k
    ensures forall i :: 0 <= i < |s| && key(s[i]) != k ==> s[i] in r
  {
    if s == [] then []
    else
      assert s == [s[0]] + s[1..];
      (if key(s[0]) == k then [] else [s[0]]) + Except(s[1..], key, k)
  }

  /** The first row of a selection (`rows[0]`) is the first row of the table that matches. */
  lemma {:induction false} WhereHead<T, K>(s: seq<T>, key: T -> K, k: K, i: nat)
    requires i < |s| && key(s[i]) == k
    requires forall j :: 0 <= j < i ==> key(s[j]) != k
    ensures Where(s, key, k) != [] && Where(s, key, k)[0] == s[i]
  {
    if i > 0 {
      WhereHead(s[1..], key, k, i - 1);
    }
  }

  /** A selection keeps the table's order: rows that arrive in increasing key order are selected in it. */
  lemma {:induction false} WhereIncreasing<T, K>(s: seq<T>, key: T -> K, k: K, order: T -> nat)
    requires Increasing(s, order)
    ensures Increasing(Where(s, key, k), order)
  {
    if s != [] {
      WhereIncreasing(s[1..], key, k, order);
      var rest := Where(s[1..], key, k);
      if key(s[0]) == k {
        forall j | 0 <= j < |rest| ensures order(s[0]) < order(rest[j]) {
          WhereSubset(s[1..], key, k);
          assert rest[j] in multiset(rest);
          assert rest[j] in s[1..];
          var m :| 0 <= m < |s[1..]| && s[1..][m] == rest[j];
          assert s[m + 1] == rest[j];
        }
        var r := [s[0]] + rest;
        forall i, j | 0 <= i < j < |r| ensures order(r[i]) < order(r[j]) {
          assert r[j] == rest[j - 1];
          if i > 0 { assert r[i] == rest[i - 1]; }
        }
      }
    }
  }

  /** A deletion keeps rows of the table and nothing else, each no more often than the table has it. */
  lemma {:induction false} ExceptSubset<T, K>(s: seq<T>, key: T -> K, k: K)
    ensures multiset(Except(s, key, k)) <= multiset(s)
  {
    if s != [] {
      ExceptSubset(s[1..], key, k);
      assert s == [s[0]] + s[1..];
    }
  }

  /** Deleting by a key that only row `i` carries removes exactly that row. */
  lemma {:induction false} ExceptUnique<T, K>(s: seq<T>, key: T -> K, i: nat)
    requires i < |s|
    requires forall j :: 0 <= j < |s| && j != i ==> key(s[j]) != key(s[i])
    ensures Except(s, key, key(s[i])) == s[..i] + s[i + 1..]
  {
    if i == 0 {
      ExceptNone(s[1..], key, key(s[0]));
    } else {
      var t, k := s[1..], key(s[i]);
      assert t[i - 1] == s[i];
      assert forall j :: 0 <= j < |t| && j != i - 1 ==> key(t[j]) != key(t[i - 1]) by {
        forall j | 0 <= j < |t| && j != i - 1 ensures key(t[j]) != key(t[i - 1]) {
          assert t[j] == s[j + 1];
        }
      }
      ExceptUnique(t, key, i - 1);
      ExceptStep(s, key, k);
      SpliceStep(s, i);
    }
  }

  lemma ExceptStep<T, K>(s: seq<T>, key: T -> K, k: K)
    requires s != [] && key(s[0]) != k
    ensures Except(s, key, k) == [s[0]] + Except(s[1..], key, k)
  {
  }

  lemma SpliceStep<T>(s: seq<T>, i: nat)
    requires 0 < i < |s|
    ensures [s[0]] + (s[1..][..i - 1] + s[1..][i..]) == s[..i] + s[i + 1..]
  {
    assert s[1..][..i - 1] == s[1..i] && s[1..][i..] == s[i + 1..];
    assert s[..i] == [s[0]] + s[1..i];
  }

  lemma {:induction false} ExceptNone<T, K>(s: seq<T>, key: T -> K, k: K)
    requires forall j :: 0 <= j < |s| ==> key(s[j]) != k
    ensures Except(s, key, k) == s
  {
    if s != [] {
      ExceptNone(s[1..], key, k);
      assert s == [s[0]] + s[1..];
    }
  }

  /** `UPDATE Wallet SET totalPoints = totalPoints + dPoints, totalAmountRedeemed = totalAmountRedeemed + dAmount WHERE walletId = id`. */
  function Adjust(ws: seq<Wallet>, id: nat, dPoints: int, dAmount: int): (r: seq<Wallet>)
    ensures |r| == |ws|
    ensures forall i :: 0 <= i < |ws| ==>
      && r[i].walletId == ws[i].walletId && r[i].userId == ws[i].userId
      && r[i].totalPoints == ws[i].totalPoints + (if ws[i].walletId == id then dPoints else 0)
      && r[i].totalAmountRedeemed == ws[i].totalAmountRedeemed + (if ws[i].walletId == id then dAmount else 0)
  {
    seq(|ws|, i requires 0 <= i < |ws| =>
      if ws[i].walletId == id
      then ws[i].(totalPoints := ws[i].totalPoints + dPoints,
                  totalAmountRedeemed := ws[i].totalAmountRedeemed + dAmount)
      else ws[i])
  }

  /** Wallet ids are unique, so the update by `walletId` changes exactly one row. */
  lemma AdjustOneRow(ws: seq<Wallet>, k: nat, dPoints: int, dAmount: int)
    requires Increasing(ws, WalletKey) && k < |ws|
    ensures Adjust(ws, ws[k].walletId, dPoints, dAmount)
         == ws[k := ws[k].(totalPoints := ws[k].totalPoints + dPoints,
                           totalAmountRedeemed := ws[k].totalAmountRedeemed + dAmount)]
  {
    forall i | 0 <= i < |ws| && i != k ensures ws[i].walletId != ws[k].walletId {
      assert WalletKey(ws[i]) != WalletKey(ws[k]) by {
        assert i < k || k < i;
      }
    }
  }

  /** The profile columns `updateUser` writes. */
  datatype Profile = Profile(name: string, gender: Option<string>, profileImage: string, phone: string, dob: Option<string>)

  /** The profile columns of a User row. */
  function ProfileOf(u: User): Profile {
    Profile(u.name, u.gender, u.profileImage, u.phone, u.dob)
  }

  /**
   * `UPDATE User SET name = ?, gender = ?, profileImage = ?, phone = ?, dob = ? WHERE id = id`: the
   * rows with that id take the new profile, every other column (the email and the password hash among
   * them) and every other row stay as they were.
   */
  function SetProfile(us: seq<User>, id: nat, p: Profile): (r: seq<User>)
    ensures |r| == |us|
    ensures forall i :: 0 <= i < |us| ==>
      && r[i].id == us[i].id && r[i].email == us[i].email && r[i].password == us[i].password
      && r[i].accountDetailsId == us[i].accountDetailsId && r[i].createdAt == us[i].createdAt
      && ProfileOf(r[i]) == (if us[i].id == id then p else ProfileOf(us[i]))
  {
    seq(|us|, i requires 0 <= i < |us| =>
      if us[i].id == id
      then us[i].(name := p.name, gender := p.gender, profileImage := p.profileImage, phone := p.phone, dob := p.dob)
      else us[i])
  }
}
