/**
  The permission ledger (`check_user_permission`): a sheet of rows
  `Line User ID | 是否有權限 | 使用次數 | 最後查詢時間`. A known user whose flag is
  `是` is allowed, and their use is counted and time-stamped; any other known
  user is refused with nothing changed; an unknown user is appended with flag
  `否` and count 0 and refused; any failure, to read or to write, refuses.
*/
module Permission {
  import opened Wrappers
  import opened PyStr
  import opened Search

  const Granted: string := "是"
  const NotGranted: string := "否"

  /** One ledger row; every cell is the text the sheet holds. */
  datatype LedgerRow = LedgerRow(userId: string, flag: string, usageCount: string, lastAccess: string)

  /** The row's ID, stripped, is `userId` (the caller's ID is not stripped). */
  predicate IsUser(row: LedgerRow, userId: string) {
    Strip(row.userId) == userId
  }

  /** `int(cell) if cell else 0`, or `None` where `int` raises. */
  function UsageCount(cell: string): Option<int> {
    if cell == "" then Some(0) else ParseInt(cell)
  }

  /** The row appended for a user seen for the first time. */
  function NewUserRow(userId: string, now: string): LedgerRow {
    LedgerRow(userId, NotGranted, ShowInt(0), now)
  }

  /** The allowed user's row after their use: count (column 3) and time (column 4) rewritten. */
  function Stamped(row: LedgerRow, count: int, now: string): LedgerRow {
    row.(usageCount := ShowInt(count + 1), lastAccess := now)
  }

  /**
    One permission check: the verdict and the ledger afterwards. `reachable` is
    false when opening or reading the sheet raises, `writable` is false when the
    sheet's write (`update_cell` or `append_row`) raises; `now` is the Taipei time stamp.
  */
  function PermissionStep(rows: seq<LedgerRow>, userId: string, now: string, reachable: bool, writable: bool)
    : (bool, seq<LedgerRow>)
  {
    if !reachable then (false, rows)
    else match FirstMatch(rows, IsUser, userId, 0)
      case None => (false, if writable then rows + [NewUserRow(userId, now)] else rows)
      case Some(i) =>
        var granted := Strip(rows[i].flag) == Granted;
        match UsageCount(rows[i].usageCount)
        case None => (false, rows)
        case Some(n) =>
          if granted && writable then (true, rows[i := Stamped(rows[i], n, now)]) else (false, rows)
  }

  /**
    The first row of the user, when their flag is `是`: the check allows, the count
    read back is one more than before, the time is `now`, and no other cell of
    the ledger changes.
  */
  lemma AllowedUseIsCounted(rows: seq<LedgerRow>, userId: string, now: string, i: nat, n: int)
    requires i < |rows| && IsUser(rows[i], userId)
    requires forall j :: 0 <= j < i ==> !IsUser(rows[j], userId)
    requires Strip(rows[i].flag) == Granted && UsageCount(rows[i].usageCount) == Some(n)
    ensures PermissionStep(rows, userId, now, true, true).0
    ensures var after := PermissionStep(rows, userId, now, true, true).1;
      && |after| == |rows|
      && after[i].userId == rows[i].userId && after[i].flag == rows[i].flag
      && UsageCount(after[i].usageCount) == Some(n + 1)
      && after[i].lastAccess == now
      && forall j :: 0 <= j < |rows| && j != i ==> after[j] == rows[j]
  {
    assert FirstMatch(rows, IsUser, userId, 0) == Some(i);
    ParseShowInt(n + 1);
    assert ShowInt(n + 1) != "" by { assert |ShowNat(if n + 1 < 0 then -(n + 1) else n + 1)| > 0; }
  }

  /** A known user whose flag is not `是`, or whose count `int` cannot read, is refused with nothing changed. */
  lemma RefusedUseChangesNothing(rows: seq<LedgerRow>, userId: string, now: string, writable: bool, i: nat)
    requires i < |rows| && IsUser(rows[i], userId)
    requires forall j :: 0 <= j < i ==> !IsUser(rows[j], userId)
    requires Strip(rows[i].flag) != Granted || UsageCount(rows[i].usageCount).None?
    ensures PermissionStep(rows, userId, now, true, writable) == (false, rows)
  {
    assert FirstMatch(rows, IsUser, userId, 0) == Some(i);
  }

  /** An unknown user is refused and gets exactly one new row, flag `否` and count 0, after the others. */
  lemma UnknownUserIsRegistered(rows: seq<LedgerRow>, userId: string, now: string)
    requires forall j :: 0 <= j < |rows| ==> !IsUser(rows[j], userId)
    ensures var (ok, after) := PermissionStep(rows, userId, now, true, true);
      && !ok
      && after == rows + [LedgerRow(userId, NotGranted, after[|rows|].usageCount, now)]
      && UsageCount(after[|rows|].usageCount) == Some(0)
  {
    ParseShowInt(0);
  }

  /** Any failure to reach the ledger refuses and changes nothing. */
  lemma UnreachableLedgerRefuses(rows: seq<LedgerRow>, userId: string, now: string, writable: bool)
    ensures PermissionStep(rows, userId, now, false, writable) == (false, rows)
  {
  }

  /** A write the sheet rejects refuses and leaves the ledger as it was. */
  lemma FailedWriteRefuses(rows: seq<LedgerRow>, userId: string, now: string, reachable: bool)
    ensures PermissionStep(rows, userId, now, reachable, false) == (false, rows)
  {
  }

  /** Row `i` is the first row of `userId`. */
  predicate FirstRowOf(rows: seq<LedgerRow>, userId: string, i: int) {
    && 0 <= i < |rows| && IsUser(rows[i], userId)
    && forall j :: 0 <= j < i ==> !IsUser(rows[j], userId)
  }

  /** The row's flag is `是` and its count can be read. */
  predicate Allows(row: LedgerRow) {
    Strip(row.flag) == Granted && UsageCount(row.usageCount).Some?
  }

  /**
    A check allows exactly when the ledger is reachable and writable, the user's
    first row has flag `是` and its count can be read.
  */
  lemma AllowedIff(rows: seq<LedgerRow>, userId: string, now: string, reachable: bool, writable: bool)
    ensures PermissionStep(rows, userId, now, reachable, writable).0 <==>
      reachable && writable && (exists i :: FirstRowOf(rows, userId, i) && Allows(rows[i]))
  {
    if reachable {
      var r := FirstMatch(rows, IsUser, userId, 0);
      if r.Some? {
        assert FirstRowOf(rows, userId, r.value);
      }
      forall i | FirstRowOf(rows, userId, i) ensures r == Some(i) {
      }
    }
  }

  /**
    Registration happens once: after an unknown user (whose ID has no surrounding
    whitespace) is appended, their next check finds that row and is refused
    without adding another.
  */
  lemma RegistrationIsStable(rows: seq<LedgerRow>, userId: string, now: string, later: string, writable: bool)
    requires Strip(userId) == userId
    requires forall j :: 0 <= j < |rows| ==> !IsUser(rows[j], userId)
    ensures var after := PermissionStep(rows, userId, now, true, true).1;
      PermissionStep(after, userId, later, true, writable) == (false, after)
  {
    var after := rows + [NewUserRow(userId, now)];
    assert IsUser(after[|rows|], userId);
    assert FirstMatch(after, IsUser, userId, 0) == Some(|rows|);
    assert Strip(NotGranted) == NotGranted;
  }

  /** A check keeps the ledger's length or appends the new user's row, and never touches another user's row. */
  lemma PermissionStepFrame(rows: seq<LedgerRow>, userId: string, now: string, reachable: bool, writable: bool)
    ensures var after := PermissionStep(rows, userId, now, reachable, writable).1;
      && (|after| == |rows| || after == rows + [NewUserRow(userId, now)])
      && forall j :: 0 <= j < |rows| && !IsUser(rows[j], userId) ==> after[j] == rows[j]
  {
  }

  /** The check when the user's first row is row `i`. */
  lemma FoundStep(rows: seq<LedgerRow>, userId: string, now: string, writable: bool, i: nat)
    requires FirstRowOf(rows, userId, i)
    ensures PermissionStep(rows, userId, now, true, writable) ==
      match UsageCount(rows[i].usageCount)
      case None => (false, rows)
      case Some(n) =>
        if Strip(rows[i].flag) == Granted && writable then (true, rows[i := Stamped(rows[i], n, now)]) else (false, rows)
  {
    assert FirstMatch(rows, IsUser, userId, 0) == Some(i);
  }

  /** The check when no row is the user's. */
  lemma NotFoundStep(rows: seq<LedgerRow>, userId: string, now: string, writable: bool)
    requires forall j :: 0 <= j < |rows| ==> !IsUser(rows[j], userId)
    ensures PermissionStep(rows, userId, now, true, writable) ==
      (false, if writable then rows + [NewUserRow(userId, now)] else rows)
  {
  }

  /** The permission sheet, held in memory; `CheckUserPermission` updates it in place. */
  class PermissionLedger {
    var rows: seq<LedgerRow>

    constructor (initial: seq<LedgerRow>)
      ensures rows == initial
    {
      rows := initial;
    }

    /**
      `check_user_permission`: scan for the user's first row; allow and stamp it,
      refuse, or append a new row and refuse. A write that raises refuses.
    */
    method CheckUserPermission(userId: string, now: string, reachable: bool, writable: bool) returns (allowed: bool)
      modifies this
      ensures (allowed, rows) == PermissionStep(old(rows), userId, now, reachable, writable)
      ensures |rows| == |old(rows)| || rows == old(rows) + [NewUserRow(userId, now)]
      ensures forall j :: 0 <= j < |old(rows)| && !IsUser(old(rows)[j], userId) ==> rows[j] == old(rows)[j]
    {
      PermissionStepFrame(rows, userId, now, reachable, writable);
      if !reachable {
        return false;
      }
      var i := 0;
      while i < |rows|
        invariant 0 <= i <= |rows| && rows == old(rows)
        invariant forall j :: 0 <= j < i ==> !IsUser(rows[j], userId)
      {
        if Strip(rows[i].userId) == userId {
          FoundStep(rows, userId, now, writable, i);
          var granted := Strip(rows[i].flag) == Granted;
          var count := UsageCount(rows[i].usageCount);
          if count.None? {
            return false;
          }
          if granted {
            if !writable {
              return false;
            }
            rows := rows[i := Stamped(rows[i], count.value, now)];
            return true;
          }
          return false;
        }
        i := i + 1;
      }
      NotFoundStep(rows, userId, now, writable);
      if writable {
        rows := rows + [NewUserRow(userId, now)];
      }
      return false;
    }
  }
}
