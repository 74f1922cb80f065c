/**
 * commands/admin/uptime.js: the process uptime, floored to whole seconds,
 * split into days, hours, minutes and seconds and shown as `Dd Hh Mm Ss`.
 * The uptime arrives in milliseconds, as a parameter.
 */
module Uptime {
  import Js

  datatype Parts = Parts(days: nat, hours: nat, minutes: nat, seconds: nat)

  /** `Math.floor(process.uptime())`. */
  function TotalSeconds(uptimeMs: nat): nat {
    uptimeMs / 1000
  }

  /** The four floor-divisions of lines 7-10. */
  function Split(total: nat): Parts {
    Parts(total / (3600 * 24), (total / 3600) % 24, (total / 60) % 60, total % 60)
  }

  function Text(p: Parts): string {
    Js.DecimalString(p.days) + "d " + Js.DecimalString(p.hours) + "h " +
    Js.DecimalString(p.minutes) + "m " + Js.DecimalString(p.seconds) + "s"
  }

  /** The text the command shows for an uptime of `uptimeMs` milliseconds. */
  function UptimeText(uptimeMs: nat): string {
    Text(Split(TotalSeconds(uptimeMs)))
  }

  predicate InRange(p: Parts) {
    p.hours < 24 && p.minutes < 60 && p.seconds < 60
  }

  function Seconds(p: Parts): nat {
    p.days * 86400 + p.hours * 3600 + p.minutes * 60 + p.seconds
  }

  // ---- lemmas ----

  /** A quotient and remainder in range are the floor-division's, for the divisors the split uses. */
  lemma DivUnique(x: nat, m: nat, q: nat, r: nat)
    requires m == 60 || m == 24
    requires r < m && x == m * q + r
    ensures x / m == q && x % m == r
  {
  }

  /**
   * The parts add back up to the total, hours stay below 24 and minutes and
   * seconds below 60.
   */
  lemma {:induction false} SplitSpec(total: nat)
    ensures InRange(Split(total)) && Seconds(Split(total)) == total
  {
    var p := Split(total);
    var m := total / 60;
    var h := m / 60;
    assert total / 3600 == h;
    assert p.days == h / 24;
    assert total == 60 * m + p.seconds;
    assert m == 60 * h + p.minutes;
    assert h == 24 * p.days + p.hours;
    calc {
      Seconds(p);
      p.days * 86400 + p.hours * 3600 + p.minutes * 60 + p.seconds;
      (24 * p.days + p.hours) * 3600 + p.minutes * 60 + p.seconds;
      h * 3600 + p.minutes * 60 + p.seconds;
      (60 * h + p.minutes) * 60 + p.seconds;
      total;
    }
  }

  /** The split is the only one with parts in range that adds up to the total. */
  lemma {:induction false} SplitUnique(total: nat, p: Parts)
    requires InRange(p) && Seconds(p) == total
    ensures p == Split(total)
  {
    var m := p.days * 1440 + p.hours * 60 + p.minutes;
    assert total == 60 * m + p.seconds;
    DivUnique(total, 60, m, p.seconds);
    var h := p.days * 24 + p.hours;
    assert m == 60 * h + p.minutes;
    DivUnique(m, 60, h, p.minutes);
    DivUnique(h, 24, p.days, p.hours);
    SplitSpec(total);
  }
}
