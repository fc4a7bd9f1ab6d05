/** The `account` rows that the two aggregate queries of account-checker.js read, and what
    those queries compute: `noTokenQuery` counts the rows whose `refresh_token` is empty,
    `readyToUseQuery` sums 1 over the rows that meet a fixed eligibility conjunction. */
module Accounts {
  import opened Wrappers

  /** One row of the `account` table, with the columns the queries read. `last_disabled`
      may be NULL (the query coalesces it); the others are taken to be NOT NULL. Times are
      unix timestamps in seconds. */
  datatype Account = Account(
    banned: bool,
    invalid: bool,
    suspended: bool,
    warnExpiration: int,
    consecutiveDisableCount: int,
    lastDisabled: Option<int>,
    level: int,
    refreshToken: string)

  /** The reuse cooldown of the ready query: 345600 seconds, four days. */
  const DisableCooldown: int := 345600

  /** The lowest level a ready account may have. */
  const MinLevel: int := 30

  /** `refresh_token = ''`. */
  predicate HasNoToken(a: Account) {
    a.refreshToken == ""
  }

  /** The CASE condition of the ready query, with `now` for `UNIX_TIMESTAMP()`. */
  predicate IsReady(a: Account, now: int) {
    && !a.banned
    && !a.invalid
    && a.warnExpiration < now
    && !a.suspended
    && a.consecutiveDisableCount <= 1
    && now - DisableCooldown > Coalesce(a.lastDisabled, 0)
    && a.level >= MinLevel
    && a.refreshToken != ""
  }

  /** The number of rows that satisfy `p`. */
  function Count<T>(rows: seq<T>, p: T -> bool): (n: nat)
    ensures n <= |rows|
  {
    if rows == [] then 0 else (if p(rows[0]) then 1 else 0) + Count(rows[1..], p)
  }

  /** `SELECT COUNT(*) FROM account WHERE refresh_token = ''`. */
  function NoTokenCount(accounts: seq<Account>): nat {
    Count(accounts, HasNoToken)
  }

  /** The number of rows for which the CASE of the ready query yields 1. */
  function ReadyCount(accounts: seq<Account>, now: int): nat {
    Count(accounts, a => IsReady(a, now))
  }

  /** `SELECT SUM(CASE ... THEN 1 ELSE 0 END) AS Total FROM account`: SQL's SUM of no rows
      is NULL, otherwise the number of ready rows. */
  function ReadyTotal(accounts: seq<Account>, now: int): (total: Option<nat>)
    ensures total.None? <==> accounts == []
    ensures total.Some? ==> total.value <= |accounts|
  {
    if accounts == [] then None else Some(ReadyCount(accounts, now))
  }

  /** The single row each aggregate query returns as its result set. */
  datatype CountRow = CountRow(count: nat)
  datatype TotalRow = TotalRow(total: Option<nat>)

  /** The result set of `noTokenQuery`: one row, whose `COUNT(*)` is the no-token count. */
  function NoTokenRows(accounts: seq<Account>): (rows: seq<CountRow>)
    ensures |rows| == 1 && rows[0].count <= |accounts|
  {
    [CountRow(NoTokenCount(accounts))]
  }

  /** The result set of `readyToUseQuery`: one row, whose `Total` is the ready sum. */
  function ReadyToUseRows(accounts: seq<Account>, now: int): (rows: seq<TotalRow>)
    ensures |rows| == 1 && (rows[0].total.None? <==> accounts == [])
  {
    [TotalRow(ReadyTotal(accounts, now))]
  }

  // ---------------------------------------------------------------------------------------
  // Counting
  // ---------------------------------------------------------------------------------------

  /** Counting over a concatenation adds the counts of the parts. */
  lemma {:induction false} CountAppend<T>(a: seq<T>, b: seq<T>, p: T -> bool)
    ensures Count(a + b, p) == Count(a, p) + Count(b, p)
  {
    if a == [] {
      assert a + b == b;
    } else {
      assert (a + b)[0] == a[0];
      assert (a + b)[1..] == a[1..] + b;
      CountAppend(a[1..], b, p);
    }
  }

  /** Taking one row out of a sequence lowers the count by that row's share. */
  lemma {:induction false} CountRemoveAt<T>(b: seq<T>, i: nat, p: T -> bool)
    requires i < |b|
    ensures Count(b, p) == (if p(b[i]) then 1 else 0) + Count(b[..i] + b[i + 1..], p)
  {
    var rest := b[..i] + b[i + 1..];
    if i == 0 {
      assert rest == b[1..];
    } else {
      var tail := b[1..];
      CountRemoveAt(tail, i - 1, p);
      assert tail[i - 1] == b[i];
      assert rest[0] == b[0];
      assert rest[1..] == tail[..i - 1] + tail[i..];
    }
  }

  /** A count depends only on the multiset of rows, not on the order the table returns them. */
  lemma {:induction false} CountPermutation<T>(a: seq<T>, b: seq<T>, p: T -> bool)
    requires multiset(a) == multiset(b)
    ensures Count(a, p) == Count(b, p)
    decreases |a|
  {
    if a == [] {
      assert |multiset(b)| == 0;
    } else {
      assert a[0] in multiset(b);
      var i :| 0 <= i < |b| && b[i] == a[0];
      var rest := b[..i] + b[i + 1..];
      RestMultiset(a, b, i);
      CountPermutation(a[1..], rest, p);
      CountRemoveAt(b, i, p);
    }
  }

  lemma RestMultiset<T>(a: seq<T>, b: seq<T>, i: nat)
    requires a != [] && i < |b| && b[i] == a[0] && multiset(a) == multiset(b)
    ensures multiset(a[1..]) == multiset(b[..i] + b[i + 1..])
  {
    assert a == [a[0]] + a[1..];
    assert b == b[..i] + [b[i]] + b[i + 1..];
    assert multiset(b) == multiset(b[..i]) + multiset{b[i]} + multiset(b[i + 1..]);
    assert multiset(a) == multiset{a[0]} + multiset(a[1..]);
    assert multiset(b[..i] + b[i + 1..]) == multiset(b[..i]) + multiset(b[i + 1..]);
    forall x ensures multiset(a[1..])[x] == multiset(b[..i] + b[i + 1..])[x] {
      assert multiset(a)[x] == multiset{a[0]}[x] + multiset(a[1..])[x];
      assert multiset(b)[x] == multiset(b[..i])[x] + multiset{b[i]}[x] + multiset(b[i + 1..])[x];
    }
  }

  /** The count is positive exactly when some row satisfies the predicate. */
  lemma {:induction false} CountPositive<T>(rows: seq<T>, p: T -> bool)
    ensures Count(rows, p) > 0 <==> exists i :: 0 <= i < |rows| && p(rows[i])
  {
    if rows != [] {
      CountPositive(rows[1..], p);
      assert forall i :: 1 <= i < |rows| ==> rows[i] == rows[1..][i - 1];
      if !p(rows[0]) && Count(rows, p) == 0 {
        forall i | 0 <= i < |rows| ensures !p(rows[i]) {
          if i > 0 {
            assert rows[i] == rows[1..][i - 1];
          }
        }
      }
    }
  }

  /** Two predicates that no row satisfies together count at most one per row between them. */
  lemma {:induction false} CountDisjoint<T>(rows: seq<T>, p: T -> bool, q: T -> bool)
    requires forall i :: 0 <= i < |rows| ==> !(p(rows[i]) && q(rows[i]))
    ensures Count(rows, p) + Count(rows, q) <= |rows|
  {
    if rows != [] {
      assert forall i :: 1 <= i < |rows| ==> rows[i] == rows[1..][i - 1];
      CountDisjoint(rows[1..], p, q);
    }
  }

  // ---------------------------------------------------------------------------------------
  // The two aggregates
  // ---------------------------------------------------------------------------------------

  /** An account without a token is never ready. */
  lemma NoTokenIsNeverReady(a: Account, now: int)
    requires HasNoToken(a)
    ensures !IsReady(a, now)
  {
  }

  /** The no-token rows and the ready rows are disjoint, so the two counts together never
      exceed the number of accounts. */
  lemma CountsDisjoint(accounts: seq<Account>, now: int)
    ensures NoTokenCount(accounts) + ReadyCount(accounts, now) <= |accounts|
  {
    CountDisjoint(accounts, HasNoToken, a => IsReady(a, now));
  }

  /** Both aggregates are the same for any reordering of the table. */
  lemma AggregatesIgnoreRowOrder(a: seq<Account>, b: seq<Account>, now: int)
    requires multiset(a) == multiset(b)
    ensures NoTokenCount(a) == NoTokenCount(b)
    ensures ReadyTotal(a, now) == ReadyTotal(b, now)
  {
    CountPermutation(a, b, HasNoToken);
    CountPermutation(a, b, a => IsReady(a, now));
    if a == [] {
      assert |multiset(b)| == 0;
    }
    if b == [] {
      assert |multiset(a)| == 0;
    }
  }

  /** Some account is ready exactly when the ready total is a positive number. */
  lemma ReadyTotalPositive(accounts: seq<Account>, now: int)
    ensures (ReadyTotal(accounts, now).Some? && ReadyTotal(accounts, now).value > 0) <==>
            exists i :: 0 <= i < |accounts| && IsReady(accounts[i], now)
  {
    CountPositive(accounts, a => IsReady(a, now));
  }

  /** Some account lacks a token exactly when the no-token count is positive. */
  lemma NoTokenCountPositive(accounts: seq<Account>)
    ensures NoTokenCount(accounts) > 0 <==>
            exists i :: 0 <= i < |accounts| && HasNoToken(accounts[i])
  {
    CountPositive(accounts, HasNoToken);
  }

  /** The cooldown is strict: an otherwise eligible account disabled exactly four days ago is
      not yet ready, and one disabled a second earlier is. */
  lemma CooldownIsStrict(a: Account, now: int)
    requires !a.banned && !a.invalid && !a.suspended && a.warnExpiration < now
    requires a.consecutiveDisableCount <= 1 && a.level >= MinLevel && a.refreshToken != ""
    ensures a.lastDisabled == Some(now - 345600) ==> !IsReady(a, now)
    ensures a.lastDisabled == Some(now - 345601) ==> IsReady(a, now)
    ensures a.lastDisabled.None? ==> (IsReady(a, now) <==> now > 345600)
  {
  }
}
