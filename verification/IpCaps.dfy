/** The per-IP connection caps at the granularity their callers rely on
    (relay/internal/ipcaps/ipcaps.go): `Acquire` and `Release` are single atomic steps.
 */
module IpCaps {

  /** DefaultGlobalMax, which a Bedrock tunnel's caps always get. */
  const GLOBAL_MAX: nat := 10_000

  /** `max == 0` disables the per-IP cap; the global ceiling stays. */
  datatype Caps = Caps(max: nat, conns: map<string, nat>, total: int) {

    function Held(ip: string): nat {
      if ip in conns then conns[ip] else 0
    }

    predicate Admits(ip: string) {
      total < GLOBAL_MAX && (max == 0 || Held(ip) < max)
    }

    function Acquire(ip: string): Caps {
      if max == 0 then this.(total := total + 1)
      else this.(total := total + 1, conns := conns[ip := Held(ip) + 1])
    }

    /** Saturates at zero, so an unpaired release would go unnoticed here. */
    function Release(ip: string): Caps {
      if max == 0 then this.(total := total - 1)
      else if Held(ip) <= 1 then this.(total := total - 1, conns := conns - {ip})
      else this.(total := total - 1, conns := conns[ip := Held(ip) - 1])
    }
  }
}
