# Tax collectors: a verified model of the sequential core

The program runs a fixed number of "tax collectors". Each one is a worker
thread with a balance and two counters. Each worker repeatedly draws a random
partner and locks both collectors, smaller id first. If half the partner's
balance is at least 100 and the shutdown flag `cancelPhase` is clear, it takes
that half. A global ledger counts every successful transaction. At the end,
`main` sums all balances and counters and compares them with the ledger and
with the expected total `funds * collectorCount`.

Each transaction happens while both collectors' locks are held, so this model
treats one transaction as one atomic step on the shared state. A run of the
program becomes one interleaving of such steps and of the controller's flag
changes.

- `fnv.dfy` (module `Fnv`): the 32-bit FNV-1a hash that seeds each worker's
  generator. `HashSpec` is the hash as a fold over the key and `Hash` is the
  source's loop. The key is read through a plain `char` pointer. Whether
  `char` is signed depends on the platform, so `signedChar` is a parameter,
  and `CharToWord` converts a byte to a word explicitly. With a signed `char`,
  bytes of 0x80 and above are sign-extended. The result then differs from
  canonical FNV-1a (`SignExtensionChangesHash`). It agrees with canonical
  FNV-1a on ASCII keys (`AsciiKeysHashCanonically`).
- `worker.dfy` (module `Worker`): the lock-order rule and the loop that draws
  a partner different from the worker itself. The generator is an abstract
  stream `roll`, whose k-th value is the k-th draw.
- `ledger.dfy` (module `Ledger`): the shared state as a value (`State`). It
  defines the three sums that reconciliation computes (`Sums`), the invariant
  that holds whenever no transaction is in progress (`Consistent`), start-up
  (`Initial`), one transaction (`Transaction`) and a run of events (`Run`).
  The lemmas cover conservation, the counters, the threshold, the frame,
  solvency, blocked phases and the whole life of the program.
- `engine.dfy` (module `Engine`): class `Economy`, which holds the array of
  collector records, the ledger fields and the flag. Its methods update these
  in place: `Init`, `Transact`, `SetCancelPhase` and `Reconcile`. Each method
  is proved against the functions of `Ledger`. `Simulate` is `main` with the
  timed run replaced by a given interleaving of attempts.

The program's static initialiser sets `cancelPhase` to false. `main` sets it
to true at start-up, before any worker exists (tcd.c:153), so the model starts
with the flag set.

## Model

| member | source | states |
|---|---|---|
| `Fnv.CharValue` | tcd.c:30-35 | the value of a `char` holding a byte is in [-128, 128) when `char` is signed and in [0, 256) otherwise, and always equals the byte modulo 256 |
| `Fnv.CharToWordIsModular` | tcd.c:30-35 | the word XORed into the hash is the `char` value converted to unsigned 32 bits: the value itself when non-negative, the value plus 2^32 (sign extension) when negative; its low byte is always the key byte |
| `Fnv.HashSteps` | tcd.c:33-36 | the empty key hashes to 0x811c9dc5; appending byte b XORs the converted b into the previous hash and multiplies by 0x01000193 modulo 2^32 |
| `Fnv.Hash` | tcd.c:28-40 | the countdown loop over the key returns exactly the fold `HashSpec` |
| `Fnv.AsciiKeysHashCanonically` | tcd.c:28-40 | on keys with every byte below 0x80 the signed-`char` hash equals canonical FNV-1a |
| `Fnv.SignExtensionChangesHash` | tcd.c:30-35 | with a signed `char`, the key [0x80] hashes differently from canonical FNV-1a |
| `Worker.LockOrder` | tcd.c:69-78 | the first lock is on an id no larger than the second, the two locks are on exactly `myID` and `partnerID`, and for different ids the first is strictly smaller |
| `Worker.LockOrderIgnoresRoles` | tcd.c:69-78 | the lock order is min-then-max, and it is the same when "mine" and "partner" are swapped |
| `Worker.ChoosePartner` | tcd.c:60 | with draws in [0, collectorCount), the chosen partner is in range, differs from `myID`, is the last draw taken, and every earlier draw was `myID` |
| `Ledger.InitialConsistent` | tcd.c:149-164 | start-up gives ids equal to positions, balances summing to `funds * n` = `globalBalance`, every per-collector counter sum and both global counters at zero, the flag set, and no debt when `funds >= 0` |
| `Ledger.IneligibleIsNoOp` | tcd.c:81-98 | if the partner's half is below 100 or `cancelPhase` is set, the attempt leaves the whole state unchanged |
| `Ledger.TransferEffect` | tcd.c:81-95 | after a successful transaction the partner holds exactly half its old balance, which is at least 100. `myID` gains that half, read before the partner was halved. The partner's out-count, my in-count and both global counters each rise by exactly 1; the other counters and the ids stay the same |
| `Ledger.TransactionFrame` | tcd.c:80-98 | every collector other than the two involved, every id, `globalBalance` and `cancelPhase` are unchanged |
| `Ledger.TransactionSums` | tcd.c:84-95 | a transaction between two different collectors keeps the balance sum. The in-sum, the out-sum and both global counters each rise by 1 if it succeeds and by 0 otherwise |
| `Ledger.TransactionPreservesConsistency` | tcd.c:80-98 | if before the step the balances sum to `globalBalance`, the counters sum to the global counters and the two global counters are equal, all of this still holds after it |
| `Ledger.TransactionPreservesSolvency` | tcd.c:84-89 | non-negative balances stay non-negative and no per-collector or global counter decreases |
| `Ledger.SelfTransactionLosesMoney` | tcd.c:84-85 | if a collector traded with itself, the update sequence alone would leave three quarters of its balance, and the total would fall. The loop at tcd.c:60 never lets this happen, because it excludes `myID` |
| `Ledger.RunPreservesConsistency` | tcd.c:56-107 | any interleaving of transaction attempts and flag changes keeps the invariant and `globalBalance` |
| `Ledger.RunPreservesSolvency` | tcd.c:84-89 | over any interleaving, the absence of debt is kept, and no collector's in- or out-counter and neither global counter ever decreases |
| `Ledger.BlockedAttemptsChangeNothing` | tcd.c:81 | while `cancelPhase` is set (set-up and wind-down), any number of attempts leave the state exactly as it was |
| `Ledger.Lifecycle` | tcd.c:149-198 | attempts before the flag is cleared change nothing, and neither do attempts after it is set again. At reconciliation the balances sum to `globalBalance` = `funds * n` and the four counts are equal. With `funds >= 0`, nobody is in debt |
| `Engine.Economy.Init` | tcd.c:149-164 | the new object's state is `Initial(n, funds)`: a fresh array of n records (i, funds, 0, 0), the ledger at `funds * n` with zero counters, and the flag set |
| `Engine.Economy.Transact` | tcd.c:80-98 | the in-place updates of the array and the global counters produce exactly `Transaction` of the old state, and the invariant is kept |
| `Engine.Economy.SetCancelPhase` | tcd.c:172-180 | only the flag changes, and the invariant is kept |
| `Engine.Economy.Reconcile` | tcd.c:189-198 | the summing loop returns the balance, in-count and out-count sums of all collectors; on a consistent state these equal `globalBalance` and the two equal global counters |
| `Engine.Simulate` | tcd.c:148-198 | for any interleaving: the reconciled balance sum equals `funds * n` and the four counts are equal. The number of successful transactions is at most the number of attempts made while running. The final records returned for the per-collector report sum to the reconciled values, and with `funds >= 0` none is in debt |

## Left out

- Threads, mutexes, cancellation and scheduling are not modelled: `pthread_create`, `pthread_cancel`, `pthread_join`, `pthread_setcancelstate`, `pthread_testcancel`, `pthread_mutex_*`, `sched_yield` and `sleep`. The only effect kept is that each transaction is one atomic step, and that a run is an interleaving of such steps.
- Deadlock freedom and progress are liveness properties of interleaved threads. Only the lock-order rule they rest on is stated (`Worker.LockOrder`).
- `roll` (floating-point scaling of `rand_r`) and the seeding from `time(NULL)` are not modelled. `ChoosePartner` takes the stream of draws as a parameter whose values lie in [0, collectorCount). `Hash` takes any byte key, not only the bytes of a `time_t`.
- Worker.ChoosePartner: requires that some draw eventually differs from `myID`. The source loop spins forever otherwise, for instance when `collectorCount` is 1. Neither `roll` nor `rand_r` is a cancellation point, so such a worker never reaches `pthread_testcancel` (tcd.c:63). The `pthread_join` at tcd.c:185 then blocks forever, and with one collector the program never terminates. This is a defect of the source, not only a limit of the model.
- Engine.Economy.Transact: requires `myID != partnerID`. The partner loop guarantees this. A worker locking its own mutex twice would block on itself. `Ledger.SelfTransactionLosesMoney` shows what the updates alone would do.
- Balances are exact reals, not `double`: the source only approximately conserves money after rounding.
- Counters are unbounded naturals: `unsigned long` wrap-around is not modelled. `funds * collectorCount` is computed without `int` overflow.
- A negative collector count is not modelled (`n` is a natural number). In the source, `sizeof(collector) * collectorCount` at tcd.c:145 is computed as `size_t`, so a negative count becomes a huge size and `malloc` returns NULL. The loops at tcd.c:156, 167, 182 and 189 then never run, and the program ends normally. It reports the expected total `funds * collectorCount` (for example -300 for a count of -1) next to a summed balance of 0 (tcd.c:149, 203). On that input the source's own reconciliation shows a mismatch from start-up, and the model excludes it.
- Argument parsing (`atoi`, `atof`), all `printf` reporting and `malloc`/`free` are not part of this model.
