# localtunnel tunnel registry, modelled in Dafny

This project models the in-memory control core of the localtunnel server,
`localtunnel/server/tunnel.py`, and proves properties of that model. The core covers:

- **Tunnels.** Each tunnel has a name and an owning client string. It may carry
  `user:passwd` protection and a custom domain. It holds a stack of at most three
  backend connections, guarded by a counting semaphore, plus `updated` and `idle`
  activity fields.
- **The registry.** This is the class-level `_tunnels` dict, which maps names to
  tunnels. It is the target of `create`, `destroy`, hostname resolution and the
  control-request and proxy-request lookups.
- **The idle scan.** One pass of the idle scanner flags stale tunnels as idle
  and counts them.

Files:

- `pystr.dfy` (module `PyStr`): the Python string behaviour the core relies on:
  - `str.split(sep)` and its inverse `join`;
  - `str.split(sep, 1)[-1]`;
  - `str.endswith`;
  - `str.lower` on ASCII.

  It also holds the facts about splitting that the proofs use.
- `tunnel.dfy` (module `TunnelServer`):
  - `Backend`, an opaque socket with a `closed` flag.
  - `Tunnel`, a class whose fields the operations update in place. `Valid()` says
    `available == |pool| <= 3`, where `available` stands for the semaphore count.
  - `Registry`, a class holding `tunnels: map<string, Tunnel>` and the stats
    collector's call log. Its `Valid()` says every tunnel is filed under its own name
    and keeps its own pool invariant. Python's `==` on `Tunnel` is object identity, and Dafny's
    `==` on class references is identity too.
  - The pure parts as functions: `ParseProtect`, `PlatformToken`, `HostnameCandidate`
    and `GetByProxyRequest`.
- `scenarios.dfy` (module `TunnelScenarios`): client methods that chain the
  operations: stack order, a full pool, idle then active again, a stale destroy,
  and same-client reconnection. Each is proved from the operations' contracts alone.

Time is an integer tick `now`, passed to every operation that reads the clock.
The stats collector can be present or absent (`hasStats`). Its `value` and
`count` calls are recorded as `StatEvent`s in `Registry.statsLog`.

Where the code's behaviour could be read two ways, the model follows the code:

- The usage token that `destroy` reports is `client.split(';', 1)[-1].lower()`.
  That is everything after the **first** `;`, not the last one. The model and
  `PlatformTokenAfterFirstSemicolon` state exactly that.
- `destroy` looks up `_tunnels[self.name]` without a default. A tunnel whose name
  is no longer registered therefore raises `KeyError`, and it does so after its
  backends have been closed and the stats reported. `Registry.Destroy` returns
  `Fail(KeyMissing(name))` on that path instead of requiring the name to be present.
- `destroy` closes the pooled backends but leaves `proxy_pool` as it was.
- If the same client reconnects with a malformed `protect`, the old tunnel is
  already destroyed and unregistered before the new tunnel's constructor raises.
  The name is then left unregistered. `GetByControlRequest` states this case
  (`tunnels == old(tunnels) - {name}`).

## Model

| member | source | states |
|---|---|---|
| `PyStr.Split` | localtunnel/server/tunnel.py:22 | `str.split(sep)` always yields at least one piece, even for the empty string. |
| `PyStr.SplitJoin` | localtunnel/server/tunnel.py:22 | Joining the pieces of `str.split(sep)` with the separator gives back the input. |
| `PyStr.SplitPieces` | localtunnel/server/tunnel.py:22 | No piece of `str.split(sep)` contains the separator. |
| `PyStr.SplitConcat` | localtunnel/server/tunnel.py:75 | Splitting `a + sep + b` is splitting `a` followed by splitting `b`. |
| `PyStr.SplitConcatStep` | localtunnel/server/tunnel.py:75 | A leading character other than the separator keeps `Split(a + sep + b) == Split(a) + Split(b)` true. It extends the first piece on both sides. |
| `PyStr.SplitConcatSepStep` | localtunnel/server/tunnel.py:75 | A leading separator keeps `Split(a + sep + b) == Split(a) + Split(b)` true. It adds an empty first piece on both sides. |
| `PyStr.SplitNoSep` | localtunnel/server/tunnel.py:22 | A string without the separator splits into itself alone. |
| `PyStr.SplitLength` | localtunnel/server/tunnel.py:22 | The number of pieces is one more than the number of separators. |
| `PyStr.SplitTwo` | localtunnel/server/tunnel.py:22 | Two separator-free strings joined by the separator split back into exactly those two strings. |
| `PyStr.SplitThree` | localtunnel/server/tunnel.py:75 | Three separator-free labels joined by the separator split back into exactly those three labels. |
| `PyStr.FirstIndex` | localtunnel/server/tunnel.py:58 | Gives the position of the first occurrence of a character, or the length of the string when it is absent. No earlier position holds the character. |
| `PyStr.FirstIndexConcat` | localtunnel/server/tunnel.py:58 | In `a + sep + b` with no separator in `a`, the first separator is at the position just after `a`. |
| `PyStr.SplitOnceTail` | localtunnel/server/tunnel.py:58 | `split(sep, 1)[-1]` is the whole string when there is no separator. Otherwise it is what follows the first separator. |
| `PyStr.SplitOnceTailConcat` | localtunnel/server/tunnel.py:58 | `split(sep, 1)[-1]` of `a + sep + b`, where `a` has no separator, is `b`, even if `b` contains separators. |
| `PyStr.EndsWith` | localtunnel/server/tunnel.py:81 | `hostname.endswith(domain)` holds exactly when some tail of the hostname is the domain. |
| `PyStr.LowerChar` | localtunnel/server/tunnel.py:58 | An ASCII capital becomes its small letter, 32 code points up. Every other character is kept. The result is never an ASCII capital. |
| `PyStr.Lower` | localtunnel/server/tunnel.py:58 | Lowering keeps the length and leaves no ASCII capital. Each character is unchanged or is the capital's lower-case letter. |
| `TunnelServer.ParseProtect` | localtunnel/server/tunnel.py:21-27 | An absent or empty `protect` is falsy and gives `Unprotected`. Protection results exactly when a non-empty `protect` was supplied. A non-empty string is accepted if and only if it has exactly one `:`. The user and password contain no `:` and rebuild the string around that `:`. A rejected string reports `InvalidProtect`. |
| `TunnelServer.ParseProtectRoundTrip` | localtunnel/server/tunnel.py:21-24 | `user + ":" + passwd`, with no `:` in either part, parses back to exactly `(user, passwd)`. |
| `TunnelServer.PlatformToken` | localtunnel/server/tunnel.py:58 | The usage token has no ASCII capital and is never longer than the client string. It is strictly shorter when the client contains a `;`. |
| `TunnelServer.PlatformTokenAfterFirstSemicolon` | localtunnel/server/tunnel.py:58 | For a client `agent;rest` with no `;` in `agent`, the usage token is `rest` lower-cased, even when `rest` has more `;`. |
| `TunnelServer.PlatformTokenWithoutSemicolon` | localtunnel/server/tunnel.py:58 | A client with no `;` gives the whole client string, lower-cased. |
| `TunnelServer.HostnameCandidate` | localtunnel/server/tunnel.py:74-77 | A candidate name exists if and only if the hostname has at least `domain_part` labels, that is, two dots. The candidate is always a single label. |
| `TunnelServer.HostnameCandidateOfSubdomain` | localtunnel/server/tunnel.py:75 | Consider a host `<prefix>name.d1.d2` whose prefix is empty or ends in a dot, and where `name`, `d1` and `d2` have no dots. Its candidate is `name`, whatever the prefix adds. |
| `TunnelServer.HostnameExampleDeep` | localtunnel/server/tunnel.py:75 | The candidate of `a.b.name.example.com` is `name`. |
| `TunnelServer.HostnameExampleTooShort` | localtunnel/server/tunnel.py:74-77 | `x` has too few labels and gives no candidate. |
| `TunnelServer.DomainMatches` | localtunnel/server/tunnel.py:81 | The definition of the fallback test at tunnel.py:81: the domain is set, non-empty, and some tail of the hostname equals it. `GetByHostname` states its promise in these terms. |
| `TunnelServer.IsStale` | localtunnel/server/tunnel.py:112 | The definition of the staleness test at tunnel.py:112: more than `active_timeout` ticks have passed since the last update. `FlagStale` and `ScanIdle` state their promises in these terms. |
| `TunnelServer.DestroyEvents` | localtunnel/server/tunnel.py:55-59 | The definition of what `destroy` reports, as tunnel.py:55-59 computes it: the value `tunnel_duration` with `now - created`, then the count `usage:` plus the platform token, incremented by 1. `Destroy` and `GetByControlRequest` state their stats in these terms. |
| `TunnelServer.Backend.Close` | localtunnel/server/tunnel.py:60-61 | Closing a backend marks it closed. |
| `TunnelServer.Tunnel.constructor` | localtunnel/server/tunnel.py:18-33 | A new tunnel has the given name, client, protection and domain, and `created == updated == now`. It is not idle, its pool is empty, its semaphore count is 0, and the pool invariant holds. |
| `TunnelServer.Tunnel.AddProxyBackend` | localtunnel/server/tunnel.py:35-44 | Below capacity, the backend is appended at the top, the count goes up by one, `updated == now` and `idle` is cleared. On a full pool it fails with `PoolFull`, and the pool, count, `updated` and `idle` are unchanged. Both paths keep the semaphore count equal to the pool size, and the pool at most 3. |
| `TunnelServer.Tunnel.PopProxyBackend` | localtunnel/server/tunnel.py:46-51 | An empty pool gives `None` and nothing changes. Otherwise the last-added backend is returned and removed, and the count goes down by one. The invariant is kept. |
| `TunnelServer.Registry.constructor` | localtunnel/server/tunnel.py:14-16 | The registry starts empty, with an empty stats log and the given stats configuration. |
| `TunnelServer.Registry.Create` | localtunnel/server/tunnel.py:66-70 | A malformed `protect` raises and leaves the registry unchanged. Otherwise a fresh tunnel in its initial state replaces whatever was filed under the name, and every other entry is untouched. |
| `TunnelServer.Registry.Destroy` | localtunnel/server/tunnel.py:53-63 | Every pooled backend ends up closed, and the stats events are duration `now - created` and `usage:<token>`. An absent name gives `KeyMissing` with the registry unchanged. The entry is removed only when it is this same instance, so a newer same-named tunnel survives. |
| `TunnelServer.Registry.GetByHostname` | localtunnel/server/tunnel.py:72-84 | Too few labels give `None`. A registered candidate name wins. Otherwise any result is a registered tunnel whose non-empty domain the hostname ends with, and `None` comes back if and only if no registered tunnel has such a domain. |
| `TunnelServer.Registry.Replace` | localtunnel/server/tunnel.py:93-95 | The same client reconnecting: every backend of its old tunnel ends up closed and that tunnel's destroy stats are logged. Then a fresh tunnel in its initial state is filed under the name with all other entries untouched, or, on a malformed `protect`, the error is returned and the name is left unregistered. |
| `TunnelServer.Registry.GetByControlRequest` | localtunnel/server/tunnel.py:86-95 | A name held by another client gives `NameInUse`, and the registry, the stats and the incumbent's backends are untouched. Otherwise the old tunnel's backends are all closed and its destroy stats are logged. Then either a fresh tunnel is filed under the name with all other entries untouched, or, on a malformed `protect`, the name is left unregistered. |
| `TunnelServer.Registry.GetByProxyRequest` | localtunnel/server/tunnel.py:97-104 | Reads only. The result is an error if and only if the name is held by another client, `None` if and only if the name is unregistered, and otherwise the registered tunnel, whose client matches. |
| `TunnelServer.Registry.FlagStale` | localtunnel/server/tunnel.py:109-114 | Consider the tunnels that were stale when the loop started. The count is their number, and exactly those tunnels are flagged idle. Every other tunnel keeps its idle flag. Only `idle` fields are written. |
| `TunnelServer.Registry.ScanIdle` | localtunnel/server/tunnel.py:108-117 | Each tunnel's idle flag becomes its old value or'ed with `now - updated > active_timeout`. `updated`, pools, counts and the registry are unchanged. `tunnel_count` is the number of registered tunnels, `idle_count` is the number of stale tunnels, and both are reported to stats when it is configured. |
| `TunnelScenarios.StackOrder` | localtunnel/server/tunnel.py:35-51 | Push A, push B, then two pops on an empty pool give B, then A, and leave the pool empty. |
| `TunnelScenarios.FourthBackendRefused` | localtunnel/server/tunnel.py:36-44 | On an empty pool, the fourth backend is refused with `PoolFull` and the first three stay in order. |
| `TunnelScenarios.IdleUntilNextBackend` | localtunnel/server/tunnel.py:40-41 | A scan past the timeout flags a registered tunnel idle, and that flag is returned as `flaggedByScan`. The next backend the tunnel accepts clears the flag. |
| `TunnelScenarios.StaleDestroyKeepsNewer` | localtunnel/server/tunnel.py:62-63 | After recreating a name, destroying the older instance leaves the newer instance registered. |
| `TunnelScenarios.Reconnect` | localtunnel/server/tunnel.py:87-104 | The same client reconnecting gets a new instance, and the backends of the old one are closed. A proxy request from that client then finds the new tunnel, and one from another client gets `NameInUse`. |
| `TunnelScenarios.ProxyThroughTunnel` | localtunnel/server/tunnel.py:46-51 | A proxy request looks its tunnel up, then pops a backend from it. It gets `NameInUse` when another client owns the name, and `None` for an unregistered name or an empty pool. Otherwise it gets the last-pooled backend, which is removed. The registry invariant holds throughout. |

## Left out

- `TunnelServer.Tunnel.PopProxyBackend`: does not block. The source waits on the semaphore, under `eventlet.timeout.Timeout`, for a push or for the timeout. The model takes the semaphore only when its count is positive and otherwise returns `None` at once. Cooperative scheduling is not modelled.
- The self-rescheduling timer of `schedule_idle_scan` (`eventlet.spawn_after` and the recursive call) is not modelled. `ScanIdle` is one pass of `_scan_idle`.
- `TunnelServer.Registry.ScanIdle`: uses one `now` for every tunnel. The source calls `time.time()` afresh for each tunnel.
- Wall-clock floats: `created`, `updated` and the `tunnel_duration` value are integer ticks, and `created == updated` at construction.
- `logging.debug` in the scan is not modelled. The stats collector is an external call, recorded only as the sequence of calls made to it.
- `TunnelServer.Registry.GetByHostname`: which matching tunnel the custom-domain fallback returns depends on dict iteration order. The model promises only "some matching tunnel".
- `PyStr.Lower`: covers ASCII only. Python's `str.lower` also folds non-ASCII letters.
- Control requests are the four fields `name`, `client`, `protect` and `domain`. The `TypeError` that `cls(**obj)` raises on other keys is not modelled.
- `backend_port` and the `json` import are never used by the core and are not modelled.
- `TunnelServer.Backend.Close`: assumed never to raise. In the source an exception from `backend.close()` would escape `destroy`, skip the remaining backends and skip the removal from the registry.
- Concurrency: the operations are modelled as sequential and atomic. Sockets are modelled only through their `closed` flag.
