/** CpuReporter::report: two readings of /proc/stat, and the share of used time between them. */
module CpuReporters {
  import opened Wire
  import opened Usage

  datatype Counters = Counters(user: int, nice: int, system: int, idle: int, iowait: int, irq: int, softirq: int)

  function Total(c: Counters): int { c.user + c.nice + c.system + c.idle + c.iowait + c.irq + c.softirq }

  function Used(c: Counters): int { c.user + c.nice + c.system }

  /** One reading: the summary line, then what fscanf makes of each core's line. A
      line that does not match (None) leaves the variables as they were. */
  datatype Reading = Reading(summary: Counters, cores: seq<Option<Counters>>)

  /** The variables after the line of core i (0: the summary line). */
  function Effective(r: Reading, i: nat): Counters
    requires i <= |r.cores|
  {
    if i == 0 then r.summary else r.cores[i - 1].GetOr(Effective(r, i - 1))
  }

  /** The usage of core i, or of the whole machine for i == 0. */
  function Share(before: Reading, after: Reading, i: nat): Double
    requires i <= |before.cores| && i <= |after.cores|
  {
    var b, a := Effective(before, i), Effective(after, i);
    Percent(Used(a) - Used(b), Total(a) - Total(b))
  }

  /** The time in user, nice and system mode, in percent of the time in all seven. */
  predicate IsUsedShare(v: Double, b: Counters, a: Counters) {
    var user, nice, system := a.user - b.user, a.nice - b.nice, a.system - b.system;
    var others := (a.idle - b.idle) + (a.iowait - b.iowait) + (a.irq - b.irq) + (a.softirq - b.softirq);
    IsShare(v, user + nice + system, user + nice + system + others)
  }

  /** The counters in effect at line i are those of the last line up to it that matched. */
  lemma {:induction false} EffectiveIsLast(r: Reading, i: nat, j: nat)
    requires j <= i <= |r.cores| && (j > 0 ==> r.cores[j - 1].Some?)
    requires forall k :: j <= k < i ==> r.cores[k].None?
    ensures Effective(r, i) == if j == 0 then r.summary else r.cores[j - 1].value
    decreases i
  {
    if j < i {
      EffectiveIsLast(r, i - 1, j);
    }
  }

  class CpuReporter {
    const coreCount: nat

    constructor (coreCount: nat)
      ensures this.coreCount == coreCount
    {
      this.coreCount := coreCount;
    }

    method Baseline(before: Reading) returns (total: array<int>, used: array<int>)
      requires |before.cores| == coreCount
      ensures total.Length == used.Length == coreCount + 1
      ensures forall k :: 0 <= k <= coreCount ==> total[k] == Total(Effective(before, k))
      ensures forall k :: 0 <= k <= coreCount ==> used[k] == Used(Effective(before, k))
    {
      total, used := new int[coreCount + 1], new int[coreCount + 1];
      var c := before.summary;
      total[0], used[0] := Total(c), Used(c);
      for i := 1 to coreCount + 1
        invariant c == Effective(before, i - 1)
        invariant forall k :: 0 <= k < i ==> total[k] == Total(Effective(before, k))
        invariant forall k :: 0 <= k < i ==> used[k] == Used(Effective(before, k))
      {
        c := before.cores[i - 1].GetOr(c);
        total[i], used[i] := Total(c), Used(c);
      }
    }

    /** One entry more than cores, each from the counters in effect at its line. */
    method Report(before: Reading, after: Reading) returns (usage: seq<Double>)
      requires |before.cores| == |after.cores| == coreCount
      ensures |usage| == coreCount + 1
      ensures forall i :: 0 <= i <= coreCount ==> usage[i] == Share(before, after, i)
      ensures forall i :: 0 <= i <= coreCount ==> IsUsedShare(usage[i], Effective(before, i), Effective(after, i))
    {
      var baselineTotal, baselineUsed := Baseline(before);
      var c := after.summary;
      usage := [Percent(Used(c) - baselineUsed[0], Total(c) - baselineTotal[0])];
      for i := 1 to coreCount + 1
        invariant c == Effective(after, i - 1) && |usage| == i
        invariant forall k :: 0 <= k < i ==> usage[k] == Share(before, after, k)
      {
        c := after.cores[i - 1].GetOr(c);
        usage := usage + [Percent(Used(c) - baselineUsed[i], Total(c) - baselineTotal[i])];
      }
      forall i | 0 <= i <= coreCount ensures IsUsedShare(usage[i], Effective(before, i), Effective(after, i)) {
        PercentIsShare(Used(Effective(after, i)) - Used(Effective(before, i)), Total(Effective(after, i)) - Total(Effective(before, i)));
      }
    }
  }

  /** No counter went back, and some time passed. */
  predicate Advanced(b: Counters, a: Counters) {
    && b.user <= a.user && b.nice <= a.nice && b.system <= a.system && b.idle <= a.idle
    && b.iowait <= a.iowait && b.irq <= a.irq && b.softirq <= a.softirq
    && Total(b) < Total(a)
  }

  /** The line of a core matches in both readings, or in neither. */
  predicate CoreAdvanced(b: Option<Counters>, a: Option<Counters>) {
    if b.Some? && a.Some? then Advanced(b.value, a.value) else b.None? && a.None?
  }

  predicate ReadingsAdvance(before: Reading, after: Reading)
    requires |before.cores| == |after.cores|
  {
    && Advanced(before.summary, after.summary)
    && forall i :: 0 <= i < |before.cores| ==> CoreAdvanced(before.cores[i], after.cores[i])
  }

  /** Then every entry of the report is a percentage, for missing cores too. */
  lemma {:induction false} ShareWithin(before: Reading, after: Reading, i: nat)
    requires |before.cores| == |after.cores| && i <= |before.cores| && ReadingsAdvance(before, after)
    ensures Advanced(Effective(before, i), Effective(after, i))
    ensures Within(Share(before, after, i), 0.0, 100.0)
  {
    if i > 0 {
      ShareWithin(before, after, i - 1);
    }
    var b, a := Effective(before, i), Effective(after, i);
    PercentWithin(Used(a) - Used(b), Total(a) - Total(b));
  }
}
