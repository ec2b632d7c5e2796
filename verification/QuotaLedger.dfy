/**
 The provider quota rows (`provider_usage`, `provider_quota_hours`), the SQL
 statements that change them, and the QuotaManager methods built on top.

 Instants are milliseconds since the epoch.  A billing period is an opaque
 number; which period an instant falls in is the caller's business.
 */
module QuotaLedger {
  import opened Prelude

  type Period = int
  type Hour = int

  const HOUR_MS := 3_600_000

  /** One `provider_usage` row.  The provider-reported columns may be NULL. */
  datatype Usage = Usage(local: int, perMonth: Option<int>, left: Option<int>, used: Option<int>, rate: Option<int>)

  /** What `syncFromProvider` is told by the account endpoint. */
  datatype Status = Status(perMonth: Option<int>, left: Option<int>, used: Option<int>, rate: Option<int>)

  datatype Config = Config(budget: nat, reserve: nat, hourly: nat)

  type Ledger = map<Period, Usage>
  type Buckets = map<Hour, int>

  const NEW_USAGE := Usage(0, None, None, None, None)

  function HourKey(now: nat): Hour {
    now / HOUR_MS
  }

  /** COALESCE(provider_this_month_usage, 0) */
  function Reported(u: Usage): int {
    u.used.GetOr(0)
  }

  /** MAX(local_searches, COALESCE(provider_this_month_usage, 0)) */
  function Effective(u: Usage): int {
    Max(u.local, Reported(u))
  }

  predicate MonthlyFits(u: Usage, count: int, limit: int) {
    && Effective(u) + count <= limit
    && (u.used.None? || u.left.None? || Max(u.local, u.used.value) + count <= u.used.value + u.left.value)
  }

  function WithRow(l: Ledger, period: Period): Ledger {
    if period in l then l else l[period := NEW_USAGE]
  }

  predicate CanReserveMonth(l: Ledger, period: Period, count: int, limit: int) {
    count > 0 && limit > 0 && period in l && MonthlyFits(l[period], count, limit)
  }

  function ReserveMonth(l: Ledger, period: Period, count: int, limit: int): Ledger {
    if CanReserveMonth(l, period, count, limit)
    then l[period := l[period].(local := Effective(l[period]) + count)]
    else l
  }

  function ReleaseMonth(l: Ledger, period: Period, count: int): Ledger {
    if count > 0 && period in l
    then l[period := l[period].(local := Max(Reported(l[period]), l[period].local - count))]
    else l
  }

  function Bucket(b: Buckets, hour: Hour): int {
    if hour in b then b[hour] else 0
  }

  predicate CanReserveHour(b: Buckets, hour: Hour, count: int, limit: int) {
    0 < count <= limit && (hour in b ==> b[hour] + count <= limit)
  }

  function ReserveHour(b: Buckets, hour: Hour, count: int, limit: int): Buckets {
    if CanReserveHour(b, hour, count, limit) then b[hour := Bucket(b, hour) + count] else b
  }

  function ReleaseHour(b: Buckets, hour: Hour, count: int): Buckets {
    if count > 0 && hour in b then b[hour := Max(0, b[hour] - count)] else b
  }

  function LocalOf(l: Ledger, period: Period): int {
    if period in l then l[period].local else 0
  }

  /** The figure a sync stores: never below what this application counted when it looked. */
  function SyncedLocal(captured: Usage, status: Status): int {
    if status.used.None? then captured.local else Max(captured.local, status.used.value)
  }

  function WriteStatus(l: Ledger, period: Period, captured: Usage, status: Status): Ledger {
    if period in l
    then l[period := Usage(SyncedLocal(captured, status), status.perMonth, status.left, status.used, status.rate)]
    else l
  }

  /** The monthly ceiling a reservation is checked against. */
  function AllowedLimit(cfg: Config, automated: bool, row: Usage): int {
    var configured := if automated then Max(0, cfg.budget - cfg.reserve) else cfg.budget;
    if row.perMonth.None? then configured else Min(configured, row.perMonth.value)
  }

  function HourlyLimit(cfg: Config, row: Usage): int {
    if row.rate.None? then cfg.hourly else Min(cfg.hourly, row.rate.value)
  }

  datatype Reservation = Reservation(period: Period, hour: Hour, reserved: nat)

  function Clamp(reserved: nat, actual: int): nat {
    Max(0, Min(reserved, actual))
  }

  /** The statements of Repo that touch the quota tables; each is one atomic write. */
  class Repo {
    var ledger: Ledger
    var hours: Buckets

    constructor (ledger: Ledger, hours: Buckets)
      ensures this.ledger == ledger && this.hours == hours
    {
      this.ledger, this.hours := ledger, hours;
    }

    method UsageRow(period: Period) returns (row: Usage)
      modifies this`ledger
      ensures ledger == WithRow(old(ledger), period)
      ensures period in ledger && row == ledger[period]
    {
      if period !in ledger {
        ledger := ledger[period := NEW_USAGE];
      }
      row := ledger[period];
    }

    method ReserveMonthlyCalls(period: Period, count: int, allowedLimit: int) returns (ok: bool)
      modifies this`ledger
      ensures ok == CanReserveMonth(old(ledger), period, count, allowedLimit)
      ensures ledger == ReserveMonth(old(ledger), period, count, allowedLimit)
    {
      if count <= 0 || allowedLimit <= 0 {
        return false;
      }
      ok := period in ledger && MonthlyFits(ledger[period], count, allowedLimit);
      if ok {
        ledger := ledger[period := ledger[period].(local := Effective(ledger[period]) + count)];
      }
    }

    method ReleaseMonthlyCalls(period: Period, count: int)
      modifies this`ledger
      ensures ledger == ReleaseMonth(old(ledger), period, count)
    {
      if count > 0 && period in ledger {
        var row := ledger[period];
        ledger := ledger[period := row.(local := Max(Reported(row), row.local - count))];
      }
    }

    method ReserveHourlyCalls(hour: Hour, count: int, limit: int) returns (ok: bool)
      modifies this`hours
      ensures ok == CanReserveHour(old(hours), hour, count, limit)
      ensures hours == ReserveHour(old(hours), hour, count, limit)
    {
      if count <= 0 || count > limit {
        return false;
      }
      if hour !in hours {
        hours := hours[hour := count];
        return true;
      }
      ok := hours[hour] + count <= limit;
      if ok {
        hours := hours[hour := hours[hour] + count];
      }
    }

    method ReleaseHourlyCalls(hour: Hour, count: int)
      modifies this`hours
      ensures hours == ReleaseHour(old(hours), hour, count)
    {
      if count > 0 && hour in hours {
        hours := hours[hour := Max(0, hours[hour] - count)];
      }
    }

    method UpdateUsage(period: Period, captured: Usage, status: Status)
      modifies this`ledger
      ensures ledger == WriteStatus(old(ledger), period, captured, status)
    {
      if period in ledger {
        ledger := ledger[period :=
          Usage(SyncedLocal(captured, status), status.perMonth, status.left, status.used, status.rate)];
      }
    }
  }

  /** The monthly statement succeeds exactly within every monthly figure that is known. */
  lemma MonthFitsIff(cfg: Config, automated: bool, l: Ledger, period: Period, count: int)
    requires period in l && count > 0
    ensures
      var u := l[period];
      var after := count + Max(u.local, if u.used.Some? then u.used.value else 0);
      CanReserveMonth(l, period, count, AllowedLimit(cfg, automated, u)) <==>
        && 0 < cfg.budget && after <= cfg.budget
        && (automated ==> 0 < cfg.budget - cfg.reserve && after <= cfg.budget - cfg.reserve)
        && (u.perMonth.Some? ==> 0 < u.perMonth.value && after <= u.perMonth.value)
        && (u.used.Some? && u.left.Some? ==> after <= u.used.value + u.left.value)
  {
  }

  lemma HourFitsIff(cfg: Config, u: Usage, b: Buckets, hour: Hour, count: int)
    requires count > 0
    ensures
      var inHour := if hour in b then Max(0, b[hour]) else 0;
      CanReserveHour(b, hour, count, HourlyLimit(cfg, u)) <==>
        inHour + count <= cfg.hourly && (u.rate.Some? ==> inHour + count <= u.rate.value)
  {
  }

  class QuotaManager {
    const repo: Repo
    const cfg: Config

    constructor (repo: Repo, cfg: Config)
      ensures this.repo == repo && this.cfg == cfg
    {
      this.repo, this.cfg := repo, cfg;
    }

    /**
     Uninterrupted, a reservation either raises the period's effective usage
     and the hour bucket by exactly `count` within both limits, or leaves
     every effective figure and every bucket as it was.
     */
    method ReserveCalls(count: int, automated: bool, period: Period, now: nat) returns (granted: Option<Reservation>)
      modifies repo
      ensures granted.Some? <==>
        count <= 0 ||
        var row := WithRow(old(repo.ledger), period)[period];
        && CanReserveMonth(WithRow(old(repo.ledger), period), period, count, AllowedLimit(cfg, automated, row))
        && CanReserveHour(old(repo.hours), HourKey(now), count, HourlyLimit(cfg, row))
      // the same in figures: a request is refused only where it would pass one of the limits that are known
      ensures
        var u := if period in old(repo.ledger) then old(repo.ledger)[period] else Usage(0, None, None, None, None);
        var after := count + Max(u.local, if u.used.Some? then u.used.value else 0);
        var inHour := if now / 3_600_000 in old(repo.hours) then Max(0, old(repo.hours)[now / 3_600_000]) else 0;
        granted.Some? <==>
          count <= 0 ||
          (&& 0 < cfg.budget && after <= cfg.budget
           && (automated ==> 0 < cfg.budget - cfg.reserve && after <= cfg.budget - cfg.reserve)
           && (u.perMonth.Some? ==> 0 < u.perMonth.value && after <= u.perMonth.value)
           && (u.used.Some? && u.left.Some? ==> after <= u.used.value + u.left.value)
           && inHour + count <= cfg.hourly
           && (u.rate.Some? ==> inHour + count <= u.rate.value))
      // and leaves the row and the hour within each of them
      ensures granted.Some? && count > 0 ==>
        && period in repo.ledger
        && var row := repo.ledger[period];
        && (row.used.Some? && row.left.Some? ==> row.local <= row.used.value + row.left.value)
        && (row.perMonth.Some? ==> row.local <= row.perMonth.value)
        && now / 3_600_000 in repo.hours
        && (row.rate.Some? ==> repo.hours[now / 3_600_000] <= row.rate.value)
      ensures count > 0 ==>
        var u := if period in old(repo.ledger) then old(repo.ledger)[period] else Usage(0, None, None, None, None);
        && period in repo.ledger && repo.ledger[period] == u.(local := repo.ledger[period].local)
      ensures granted.Some? ==> granted.value == Reservation(period, HourKey(now), Max(0, count))
      ensures granted.Some? && count > 0 ==>
        && period in repo.ledger
        && repo.ledger[period].local == Effective(repo.ledger[period])
           == Effective(WithRow(old(repo.ledger), period)[period]) + count
           <= (if automated then Max(0, cfg.budget - cfg.reserve) else cfg.budget)
        && Bucket(repo.hours, HourKey(now)) == Bucket(old(repo.hours), HourKey(now)) + count <= cfg.hourly
      ensures granted.None? ==>
        && repo.hours == old(repo.hours)
        && period in repo.ledger
        && Effective(repo.ledger[period]) == Effective(WithRow(old(repo.ledger), period)[period])
      ensures count <= 0 ==> repo.ledger == old(repo.ledger) && repo.hours == old(repo.hours)
      ensures forall q :: q != period ==> (q in repo.ledger <==> q in old(repo.ledger))
      ensures forall q :: q != period && q in repo.ledger ==> repo.ledger[q] == old(repo.ledger)[q]
      ensures forall h :: h != HourKey(now) ==> Bucket(repo.hours, h) == Bucket(old(repo.hours), h)
    {
      if count <= 0 {
        return Some(Reservation(period, HourKey(now), 0));
      }
      var row := repo.UsageRow(period);
      MonthFitsIff(cfg, automated, repo.ledger, period, count);
      HourFitsIff(cfg, row, repo.hours, HourKey(now), count);
      var allowedLimit := AllowedLimit(cfg, automated, row);
      var ok := repo.ReserveMonthlyCalls(period, count, allowedLimit);
      if !ok {
        return None;
      }
      ok := repo.ReserveHourlyCalls(HourKey(now), count, HourlyLimit(cfg, row));
      if !ok {
        repo.ReleaseMonthlyCalls(period, count);
        return None;
      }
      granted := Some(Reservation(period, HourKey(now), count));
    }

    /** Returns the attempts recorded; the rest of the reservation goes back to both tables. */
    method FinalizeReservation(r: Reservation, actualCount: int) returns (recorded: nat)
      modifies repo
      ensures recorded == Clamp(r.reserved, actualCount) <= r.reserved
      ensures repo.ledger == ReleaseMonth(old(repo.ledger), r.period, r.reserved - recorded)
      ensures repo.hours == ReleaseHour(old(repo.hours), r.hour, r.reserved - recorded)
      ensures
        && r.period in old(repo.ledger)
        && Reported(old(repo.ledger)[r.period]) <= old(repo.ledger)[r.period].local - r.reserved
        ==>
        Effective(repo.ledger[r.period]) == Effective(old(repo.ledger)[r.period]) - r.reserved + recorded
    {
      recorded := Max(0, Min(r.reserved, actualCount));
      var unused := r.reserved - recorded;
      if unused > 0 {
        repo.ReleaseMonthlyCalls(r.period, unused);
        repo.ReleaseHourlyCalls(r.hour, unused);
      }
    }

    /**
     Uninterrupted, a sync stores what the provider said and never lowers the
     count of this application: the counter ends at the larger of the two. A
     failed sync only makes sure that the row is there.
     */
    method SyncFromProvider(period: Period, status: Option<Status>)
      modifies repo
      ensures status.None? ==> repo.ledger == WithRow(old(repo.ledger), period)
      ensures status.Some? ==>
        && period in repo.ledger
        && repo.ledger[period].local >= LocalOf(old(repo.ledger), period)
        && repo.ledger[period].local
          == Max(LocalOf(old(repo.ledger), period), status.value.used.GetOr(LocalOf(old(repo.ledger), period)))
        && repo.ledger[period]
          == Usage(repo.ledger[period].local, status.value.perMonth, status.value.left, status.value.used,
            status.value.rate)
      ensures repo.hours == old(repo.hours)
      ensures forall q :: q != period ==> (q in repo.ledger <==> q in old(repo.ledger))
      ensures forall q :: q != period && q in repo.ledger ==> repo.ledger[q] == old(repo.ledger)[q]
    {
      var row := repo.UsageRow(period);
      if status.Some? {
        repo.UpdateUsage(period, row, status.value);
      }
    }
  }
}
