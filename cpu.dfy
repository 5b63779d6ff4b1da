/**
 * CPU accounting: the jiffy counters on the first line of /proc/stat,
 * summed two ways, and the number of online cores.
 */
module Cpu {
  import opened CTypes

  /**
   * What fscanf makes of the first line of /proc/stat with the format
   * "%4s %ld %ld %ld %ld %ld %ld %ld %ld": the number of conversions and the
   * eight counters. None stands for a file that cannot be opened.
   */
  datatype CpuLine = CpuLine(
    conversions: int,
    user: int, nice: int, system: int, idle: int,
    iowait: int, irq: int, softirq: int, steal: int)

  /** Fewer than nine conversions is a read error. */
  predicate Complete(stat: Option<CpuLine>)
  {
    stat.Some? && stat.value.conversions >= 9
  }

  /** read_total_cpu_time: the sum of all eight counters, or -1 on error. */
  function TotalCpuTime(stat: Option<CpuLine>): (r: int)
    ensures !Complete(stat) ==> r == -1
  {
    if !Complete(stat) then -1
    else
      var l := stat.value;
      l.user + l.nice + l.system + l.idle + l.iowait + l.irq + l.softirq + l.steal
  }

  /** read_active_cpu_time: the counters without idle and iowait, or -1 on error. */
  function ActiveCpuTime(stat: Option<CpuLine>): (r: int)
    ensures !Complete(stat) ==> r == -1
  {
    if !Complete(stat) then -1
    else
      var l := stat.value;
      l.user + l.nice + l.system + l.irq + l.softirq + l.steal
  }

  /**
   * The two readings of one sample split the same counters: total time is
   * active time plus idle and iowait, and with non-negative counters the
   * active time never exceeds the total.
   */
  lemma ActivePlusIdle(stat: Option<CpuLine>)
    requires Complete(stat)
    ensures TotalCpuTime(stat) == ActiveCpuTime(stat) + stat.value.idle + stat.value.iowait
    ensures stat.value.idle >= 0 && stat.value.iowait >= 0 ==> ActiveCpuTime(stat) <= TotalCpuTime(stat)
  {
  }

  /** get_cpu_cores: sysconf(_SC_NPROCESSORS_ONLN) narrowed to int, or -1 when it is not positive. */
  function GetCpuCores(online: int): (r: int)
    ensures online <= 0 ==> r == -1
    ensures 0 < online < TWO_TO_THE_32 / 2 ==> r == online
  {
    if online <= 0 then -1 else ToI32(online)
  }
}
