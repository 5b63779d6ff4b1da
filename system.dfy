/**
 * System-wide figures in the header line: uptime split into days, hours and
 * minutes, and the CPU load over one refresh interval.
 */
module System {
  import opened CTypes

  const SECONDS_PER_DAY: int := 24 * 3600
  const SECONDS_PER_HOUR: int := 3600
  const SECONDS_PER_MINUTE: int := 60

  /** Jiffies per second assumed for /proc/stat (100 Hz). */
  const TICKS_PER_SECOND: real := 100.0

  datatype Uptime = Uptime(days: int, hours: int, minutes: int)

  /**
   * read_uptime: the first number of /proc/uptime, cast to int and split
   * into whole days, hours and minutes. `reading` is None when the file
   * cannot be opened or holds no number; all three are then 0.
   */
  function ReadUptime(reading: Option<real>): (u: Uptime)
    ensures reading.None? ==> u == Uptime(0, 0, 0)
  {
    if reading.None? then Uptime(0, 0, 0)
    else
      var total := TruncToInt(reading.value);
      var days := CDiv(total, SECONDS_PER_DAY);
      var inDay := CRem(total, SECONDS_PER_DAY);
      var hours := CDiv(inDay, SECONDS_PER_HOUR);
      var inHour := CRem(inDay, SECONDS_PER_HOUR);
      Uptime(days, hours, CDiv(inHour, SECONDS_PER_MINUTE))
  }

  /** The seconds an uptime stands for, without the seconds below a minute. */
  function Seconds(u: Uptime): int
  {
    u.days * SECONDS_PER_DAY + u.hours * SECONDS_PER_HOUR + u.minutes * SECONDS_PER_MINUTE
  }

  /**
   * For a non-negative uptime the split is exact to the minute: hours are
   * within a day, minutes within an hour, and the whole seconds of the
   * reading lie within the minute the split names.
   */
  lemma UptimeSplit(x: real)
    requires x >= 0.0
    ensures var u := ReadUptime(Some(x));
      0 <= u.days && 0 <= u.hours < 24 && 0 <= u.minutes < 60
      && Seconds(u) <= TruncToInt(x) < Seconds(u) + SECONDS_PER_MINUTE
      && Seconds(u) as real <= x < (Seconds(u) + SECONDS_PER_MINUTE) as real
  {
    var t := TruncToInt(x);
    var d := t / SECONDS_PER_DAY;
    var rd := t % SECONDS_PER_DAY;
    assert t == d * SECONDS_PER_DAY + rd;
    var h := rd / SECONDS_PER_HOUR;
    var rh := rd % SECONDS_PER_HOUR;
    assert rd == h * SECONDS_PER_HOUR + rh;
    var m := rh / SECONDS_PER_MINUTE;
    assert rh == m * SECONDS_PER_MINUTE + rh % SECONDS_PER_MINUTE;
    assert ReadUptime(Some(x)) == Uptime(d, h, m);
  }

  /**
   * calculate_cpu_load: active jiffies over the jiffies all cores offer in
   * the interval, as a percentage clamped to [0, 100]; 0 when the interval
   * or the core count is not positive.
   */
  function CpuLoad(activeDelta: uint64, intervalMs: int, cpuCores: int): (load: real)
    ensures 0.0 <= load <= 100.0
    ensures intervalMs <= 0 || cpuCores <= 0 ==> load == 0.0
  {
    if intervalMs <= 0 || cpuCores <= 0 then 0.0
    else
      var intervalJiffies := (intervalMs as real / 1000.0) * TICKS_PER_SECOND * cpuCores as real;
      if intervalJiffies <= 0.0 then 0.0
      else
        var raw := (activeDelta as real / intervalJiffies) * 100.0;
        if raw > 100.0 then 100.0 else if raw < 0.0 then 0.0 else raw
  }

  /**
   * With a positive interval and core count, the load is the active share
   * of the available capacity: below saturation it equals
   * 1000 * delta / (interval_ms * cores) exactly, and it is 100 precisely
   * when the delta reaches the capacity.
   */
  lemma CpuLoadShare(activeDelta: uint64, intervalMs: int, cpuCores: int)
    requires intervalMs > 0 && cpuCores > 0
    ensures var capacity := (intervalMs * cpuCores) as real / 10.0;
      var load := CpuLoad(activeDelta, intervalMs, cpuCores);
      (load == 100.0 <==> activeDelta as real >= capacity)
      && (activeDelta as real < capacity ==> load * (intervalMs * cpuCores) as real == 1000.0 * activeDelta as real)
  {
    var capacity := (intervalMs * cpuCores) as real / 10.0;
    var jiffies := (intervalMs as real / 1000.0) * TICKS_PER_SECOND * cpuCores as real;
    assert jiffies == capacity;
    assert (intervalMs * cpuCores) as real == intervalMs as real * cpuCores as real;
    assert capacity > 0.0;
    var raw := (activeDelta as real / jiffies) * 100.0;
    assert raw * capacity == activeDelta as real * 100.0;
    assert raw >= 100.0 <==> activeDelta as real >= capacity;
  }

  /** At 800 ms on four cores, 80 active jiffies are a load of 25%. */
  lemma QuarterLoad()
    ensures CpuLoad(80, 800, 4) == 25.0
  {
    assert (800 as real / 1000.0) * TICKS_PER_SECOND * 4 as real == 320.0;
  }

  /** At 1000 ms on two cores, 50 active jiffies are a load of 25%. */
  lemma TwoCoreLoad()
    ensures CpuLoad(50, 1000, 2) == 25.0
  {
    assert (1000 as real / 1000.0) * TICKS_PER_SECOND * 2 as real == 200.0;
  }
}
