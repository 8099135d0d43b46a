/** Account balances and their daily snapshots (`DBAccountstate` rows): which
    snapshot counts as an account's latest, and the specification of
    `UpdateBalance`, which sets an account's balance and keeps at most one
    snapshot per day. */
module AccountStates {
  import opened Basics
  import opened Calendar
  import opened Entities

  /** A snapshot of account `aid`, dated at or before `bound` when there is one. */
  predicate Eligible(st: DBAccountstate, aid: int, bound: Option<DateTime>) {
    st.account == aid && (bound.None? || AtOrBefore(st.date, bound.value))
  }

  /** `Where(account, date <= bound).OrderByDescending(Date).FirstOrDefault()`:
      the index of the latest eligible snapshot; of several with the latest
      date, the first in table order (`LatestIsLatest`). */
  function Latest(states: seq<DBAccountstate>, aid: int, bound: Option<DateTime>): (r: Option<nat>)
    ensures r.Some? ==> r.value < |states| && Eligible(states[r.value], aid, bound)
    ensures r.None? <==> forall j :: 0 <= j < |states| ==> !Eligible(states[j], aid, bound)
    decreases |states|
  {
    if states == [] then None
    else
      var init := states[..|states| - 1];
      var prev := Latest(init, aid, bound);
      var last := states[|states| - 1];
      assert forall j :: 0 <= j < |init| ==> init[j] == states[j];
      if !Eligible(last, aid, bound) then prev
      else if prev.None? || Ticks(states[prev.value].date) < Ticks(last.date) then Some(|states| - 1)
      else prev
  }

  /** The snapshot `Latest` picks is dated no earlier than any eligible one,
      and strictly later than every eligible one before it. */
  lemma {:induction false} LatestIsLatest(states: seq<DBAccountstate>, aid: int, bound: Option<DateTime>)
    requires Latest(states, aid, bound).Some?
    ensures var k := Latest(states, aid, bound).value;
            && (forall j :: 0 <= j < |states| && Eligible(states[j], aid, bound) ==>
                  Ticks(states[j].date) <= Ticks(states[k].date))
            && (forall j :: 0 <= j < k && Eligible(states[j], aid, bound) ==>
                  Ticks(states[j].date) < Ticks(states[k].date))
    decreases |states|
  {
    var init := states[..|states| - 1];
    var prev := Latest(init, aid, bound);
    assert forall j :: 0 <= j < |init| ==> init[j] == states[j];
    if prev.Some? {
      LatestIsLatest(init, aid, bound);
    }
  }

  /** The snapshot `UpdateBalance` writes. */
  function Autoupdate(aid: int, balance: real, utcNow: DateTime): DBAccountstate {
    DBAccountstate(aid, utcNow, balance, "Autoupdate")
  }

  /** The snapshots after `UpdateBalance`, where `sameDay(latest, today)`
      decides whether the account's latest snapshot is today's: nothing when
      the account has none; the latest overwritten when it is today's;
      otherwise a new one appended. */
  function SnapshotBy(states: seq<DBAccountstate>, aid: int, balance: real, today: DateTime, utcNow: DateTime,
                      sameDay: (DateTime, DateTime) -> bool): seq<DBAccountstate> {
    match Latest(states, aid, None)
    case None => states
    case Some(k) =>
      if sameDay(states[k].date, today) then states[k := Autoupdate(aid, balance, utcNow)]
      else states + [Autoupdate(aid, balance, utcNow)]
  }

  /** The comparison the code makes: the day of the year only. */
  predicate SameDayOfYear(d: DateTime, today: DateTime) {
    DayOfYear(d) == DayOfYear(today)
  }

  /** The snapshots after `UpdateBalance` as the code reads. */
  function SnapshotAsWritten(states: seq<DBAccountstate>, aid: int, balance: real, today: DateTime, utcNow: DateTime): seq<DBAccountstate> {
    SnapshotBy(states, aid, balance, today, utcNow, SameDayOfYear)
  }

  /** The snapshots after `UpdateBalance` as intended: the latest is
      overwritten only when it was taken the same calendar day as `today`,
      the comparison `isSameDay` makes. */
  function Snapshot(states: seq<DBAccountstate>, aid: int, balance: real, today: DateTime, utcNow: DateTime): seq<DBAccountstate> {
    SnapshotBy(states, aid, balance, today, utcNow, IsSameDay)
  }

  /** The intended rule never loses a snapshot of an earlier calendar day:
      every snapshot not dated `today` keeps its place and value. */
  lemma SnapshotKeepsEarlierDays(states: seq<DBAccountstate>, aid: int, balance: real, today: DateTime, utcNow: DateTime)
    ensures var r := Snapshot(states, aid, balance, today, utcNow);
            forall j :: 0 <= j < |states| && !SameDate(states[j].date, today) ==> j < |r| && r[j] == states[j]
  {
    var r := Snapshot(states, aid, balance, today, utcNow);
    forall j | 0 <= j < |states| && !SameDate(states[j].date, today)
      ensures j < |r| && r[j] == states[j]
    {
      IsSameDayIffSameDate(states[j].date, today);
    }
  }

  /** The comparison as written and the intended one agree whenever the latest
      snapshot is from the current year. */
  lemma SnapshotAsWrittenAgreesWithinYear(states: seq<DBAccountstate>, aid: int, balance: real, today: DateTime, utcNow: DateTime)
    requires forall j :: 0 <= j < |states| && states[j].account == aid ==> states[j].date.year == today.year
    ensures SnapshotAsWritten(states, aid, balance, today, utcNow) == Snapshot(states, aid, balance, today, utcNow)
  {
  }

  /** The comparison as written overwrites a snapshot taken exactly one year
      earlier instead of adding today's. */
  lemma SnapshotAsWrittenOverwritesLastYear()
    ensures var lastYear := DBAccountstate(7, Stamp(2025, 10, 19, 9, 0, 0), 100.0, "Autoupdate");
            var today := Date(2026, 10, 19);
            var now := Stamp(2026, 10, 19, 9, 30, 0);
            && SnapshotAsWritten([lastYear], 7, 120.0, today, now) == [Autoupdate(7, 120.0, now)]
            && Snapshot([lastYear], 7, 120.0, today, now) == [lastYear, Autoupdate(7, 120.0, now)]
  {
    var lastYear := DBAccountstate(7, Stamp(2025, 10, 19, 9, 0, 0), 100.0, "Autoupdate");
    assert Latest([lastYear], 7, None) == Some(0) by {
      assert [lastYear][..0] == [];
    }
    assert DayOfYear(lastYear.date) == 292;
    assert DayOfYear(Date(2026, 10, 19)) == 292;
  }

  /** Account `aid` has no snapshot at or after `utcNow`. */
  predicate AllBefore(states: seq<DBAccountstate>, aid: int, utcNow: DateTime) {
    forall j :: 0 <= j < |states| && states[j].account == aid ==> Ticks(states[j].date) < Ticks(utcNow)
  }

  /** Whatever decides that the latest snapshot is today's, a snapshot is
      written only for an account that already has one, and the other
      accounts' snapshots keep their places and values. */
  lemma SnapshotTouchesOnlyAccount(states: seq<DBAccountstate>, aid: int, balance: real, today: DateTime, utcNow: DateTime,
                                   sameDay: (DateTime, DateTime) -> bool)
    ensures var r := SnapshotBy(states, aid, balance, today, utcNow, sameDay);
            && (Latest(states, aid, None).None? ==> r == states)
            && |states| <= |r| <= |states| + 1
            && (forall j :: 0 <= j < |states| && states[j].account != aid ==> r[j] == states[j])
            && (forall j :: |states| <= j < |r| ==> r[j] == Autoupdate(aid, balance, utcNow))
  {
  }

  /** Whatever decides that the latest snapshot is today's, when every
      earlier snapshot of the account predates `utcNow` the update leaves a
      snapshot with the new balance as the account's latest. */
  lemma SnapshotRecordsBalance(states: seq<DBAccountstate>, aid: int, balance: real, today: DateTime, utcNow: DateTime,
                               sameDay: (DateTime, DateTime) -> bool)
    requires Latest(states, aid, None).Some?
    requires AllBefore(states, aid, utcNow)
    ensures var r := SnapshotBy(states, aid, balance, today, utcNow, sameDay);
            Latest(r, aid, None).Some? && r[Latest(r, aid, None).value] == Autoupdate(aid, balance, utcNow)
  {
    var k := Latest(states, aid, None).value;
    var r := SnapshotBy(states, aid, balance, today, utcNow, sameDay);
    var n := if sameDay(states[k].date, today) then k else |states|;
    assert r[n] == Autoupdate(aid, balance, utcNow);
    LatestIsLatest(r, aid, None);
    forall j | 0 <= j < |r| && j != n && Eligible(r[j], aid, None)
      ensures Ticks(r[j].date) < Ticks(utcNow)
    {
      assert r[j] == states[j];
    }
  }

  /** Two updates, each after all earlier snapshots of the account, the first
      taken at a time the rule counts as today, add at most one snapshot. */
  lemma SnapshotOncePerDay(states: seq<DBAccountstate>, aid: int, b1: real, b2: real, today: DateTime, now1: DateTime, now2: DateTime,
                           sameDay: (DateTime, DateTime) -> bool)
    requires AllBefore(states, aid, now1)
    requires sameDay(now1, today)
    ensures |SnapshotBy(SnapshotBy(states, aid, b1, today, now1, sameDay), aid, b2, today, now2, sameDay)| <= |states| + 1
  {
    if Latest(states, aid, None).Some? {
      SnapshotRecordsBalance(states, aid, b1, today, now1, sameDay);
    }
  }

  /** The persisted state `UpdateBalance` works on. */
  datatype Ledger = Ledger(accounts: seq<DBAccount>, states: seq<DBAccountstate>)

  /** `UpdateBalance`: the first terminal with the account number leads to its
      account, whose balance, equity and update time are set, and whose daily
      snapshot is written with the code's day-of-year comparison; without such a terminal, or when the terminal has
      no account, nothing changes. */
  function BalanceUpdate(terminals: seq<DBTerminal>, ledger: Ledger, accountNumber: int,
                         balance: real, equity: real, today: DateTime, utcNow: DateTime): Ledger {
    match FirstWhere(terminals, (t: DBTerminal) => t.accountNumber == accountNumber)
    case None => ledger
    case Some(t) =>
      match t.account
      case None => ledger
      case Some(aid) =>
        match FirstIndex(ledger.accounts, (a: DBAccount) => a.id == aid)
        case None => ledger
        case Some(ai) =>
          var acc := ledger.accounts[ai].(balance := balance, equity := equity, lastUpdate := utcNow);
          Ledger(ledger.accounts[ai := acc], SnapshotAsWritten(ledger.states, aid, balance, today, utcNow))
  }

  /** The account behind the first terminal with the number, if it exists. */
  function AccountOfNumber(terminals: seq<DBTerminal>, accounts: seq<DBAccount>, accountNumber: int): (r: Option<nat>)
    ensures r.Some? ==> r.value < |accounts|
  {
    match FirstWhere(terminals, (t: DBTerminal) => t.accountNumber == accountNumber)
    case None => None
    case Some(t) =>
      if t.account.None? then None
      else FirstIndex(accounts, (a: DBAccount) => a.id == t.account.value)
  }

  /** Exactly the account behind the terminal changes, and it changes to the
      reported balance and equity; the snapshots change only for it. */
  lemma BalanceUpdateSetsAccount(terminals: seq<DBTerminal>, ledger: Ledger, accountNumber: int,
                                 balance: real, equity: real, today: DateTime, utcNow: DateTime)
    ensures var r := BalanceUpdate(terminals, ledger, accountNumber, balance, equity, today, utcNow);
            match AccountOfNumber(terminals, ledger.accounts, accountNumber)
            case None => r == ledger
            case Some(ai) =>
              && |r.accounts| == |ledger.accounts|
              && r.accounts[ai].id == ledger.accounts[ai].id
              && r.accounts[ai].balance == balance && r.accounts[ai].equity == equity
              && r.accounts[ai].lastUpdate == utcNow
              && (forall j :: 0 <= j < |ledger.accounts| && j != ai ==> r.accounts[j] == ledger.accounts[j])
              && r.states == SnapshotAsWritten(ledger.states, ledger.accounts[ai].id, balance, today, utcNow)
  {
  }
}
