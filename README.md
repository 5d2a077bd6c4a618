# reku-timer core, modelled in Dafny

The repository holds two independent pieces, and this project models both.
- time-mode.js is a cron scheduler. It watches a configuration file of cron
  expressions and actions. When an expression fires, its callback only logs
  the configured action (time-mode.js:106-111). It never loads rekuapi.js.
- rekuapi.js is a client for the HTTP interface of a Daphne 2VV heat
  recovery unit. It reads and writes the unit's configurations and switches
  its "time" and "boost" modes. It runs on its own: the file ends with direct
  calls on a client instance (rekuapi.js:260).

**The cron merge of `CronIterator` (time-mode.js)** is in `merge.dfy` and
`cron_iterator.dfy`.
- Every configured cron expression is a `Source`: the strictly increasing
  sequence of its occurrences, plus the cursor of its iterator.
- The iterator keeps one pending candidate per source (`ctx`).
- `next()` takes the first least candidate and advances only that source.
- `_exec` fires every event that is already due. `_run` arms a timer for the
  delay to the next event, clamped to 100000 ms.
- `run` takes the first event only right after a `reset`.
- `reset` cancels the timer and primes one candidate per source.

Module `Merge` states the merge on values: `ArgMin`, `Step`, the drain
`Drain` and the invariant `Settled`. The lemmas there prove what the merged
stream is:
- a step keeps the invariant and moves strictly forward;
- the drain emits events in strictly increasing (instant, source index)
  order;
- every emitted event is a genuine occurrence;
- no due occurrence is skipped, including the catch-up right after a reset.

Module `TimeMode` holds the class `CronIterator`, with the source's fields.
Each of its methods is proved against those functions.

**The device client of rekuapi.js** is in `reku_protocol.dfy` and
`reku_api.dfy`. The HTTP device is a function `device` that gives the parsed
reply to the n-th request. Every request is logged in `sent`. Callbacks are
modelled by the value they would receive.
- `RekuProtocol` covers the pure parts:
  - the read path `_get_path` and its unambiguity;
  - the pin check `_handle_error`;
  - the mode bits of the status word;
  - JavaScript's `==`, with which the setter of `_num_setter` compares an entry to the new value;
  - `toString`, which `set` applies to every value it writes back.
- `RekuApi` covers the rest:
  - the class `RawApi` (`RawDaphne2VVApi`) with `get` and `set`;
  - the class `Config` (the `data` object that `set` and the setters change in
    place);
  - the operations of `Daphne2VVApi`. Each is a method over the `RawApi` it
    drives, because that object is the only field `Daphne2VVApi` has. These
    operations are the setters, the recursive `wait` poller, `reset_mode`,
    `_set_mode`, `set_mode`, `_num_setter` and `call`.

  Each method is proved against a function of the device: `Poll`, `Phase`,
  `SetModeSpec` and `NumSetSpec`. `SetModeSpec` starts from the log before
  `set_mode` and gives the log after it. Lemmas then characterise those
  functions.

`optional.dfy` holds the `Option` datatype for JavaScript's absent values,
and `seqs.dfy` the lemmas about concatenation that both clients' proofs use.

## Model

| member | source | states |
|---|---|---|
| Merge.Step | time-mode.js:34-52 | one `next()` keeps one candidate per source and records a valid source index |
| Merge.Drain | time-mode.js:54-61 | the `_exec` loop stops in a settled state whose pending event is a real one, strictly after the clock reading |
| Merge.ArgMin | time-mode.js:39-47 | the scan settles on the first index holding the least candidate (ties keep the lower index) |
| Merge.StepTakesFirstMin | time-mode.js:34-52 | one `next()` records the first least candidate as `when`/`idx`, replaces only that slot with its source's following occurrence, and keeps every other slot |
| Merge.StepKeepsSettled | time-mode.js:34-52 | `next()` preserves the invariant that the occurrences taken so far are exactly those not after the last event taken, and each event taken comes strictly after the previous one |
| Merge.StepAdvances | time-mode.js:34-52 | once an event has been taken, the next `next()` takes one strictly later in (instant, index) order |
| Merge.CandidatesAfterFrontier | time-mode.js:49-51 | every pending candidate comes strictly after the event just taken |
| Merge.DrainOrdered | time-mode.js:54-61 | the events `_exec` hands to its callback come in strictly increasing order, none after the clock reading, none before the pending event, all before the event it leaves pending |
| Merge.DrainGenuine | time-mode.js:54-61 | every event handed to the callback is an occurrence of the cron source whose index it carries |
| Merge.DrainComplete | time-mode.js:54-61 | every occurrence that is due and not before the pending event is handed to the callback |
| Merge.CatchUp | time-mode.js:73-91 | after `reset`, the first `next()` in `run` and the drain of `_exec` fire every occurrence of every source that is already due |
| TimeMode.ScanEarliest | time-mode.js:39-47 | the loop in `next()` returns the first least candidate and its index |
| TimeMode.CronIterator.constructor | time-mode.js:30-32 | a new iterator has no timer |
| TimeMode.CronIterator.Next | time-mode.js:34-52 | throws "nothing scheduled" exactly when there is no candidate, changing nothing; otherwise performs `Step` on the state, keeps the invariant, and takes an event after the previous one and no later than any pending candidate |
| TimeMode.CronIterator.Exec | time-mode.js:54-61 | fires exactly the events `Drain` yields at the clock reading, leaves `Drain`'s final state, and returns the positive delay to the next event |
| TimeMode.CronIterator.RunStep | time-mode.js:63-71 | drains as `Exec` does, then arms the timer for the delay to the next event clamped to 100000 ms, a delay in (0, 100000] |
| TimeMode.CronIterator.Run | time-mode.js:73-78 | takes a first event only when `idx == -1`, failing with "nothing scheduled" exactly when the list is empty; otherwise drains from the primed state and arms the timer |
| TimeMode.CronIterator.Reset | time-mode.js:80-91 | cancels the timer, sets `idx` to -1, adopts the sources and primes slot i with occurrence 0 of source i, establishing the invariant |
| RekuProtocol.IsError | rekuapi.js:6-9 | a response is an error exactly when it is the `Err` case; `_handle_error`, `set`, the poll and `set_mode` branch on it |
| RekuProtocol.GetPath | rekuapi.js:42-48 | the read path of a configuration, built from the configuration letter, the instance id in braces and the pin; `PathRoundTrip` and `ParsePathSound` state what it determines |
| RekuProtocol.PathRoundTrip | rekuapi.js:42-48 | the read path gives back its configuration, instance id and pin when the id has no '}' |
| RekuProtocol.ParsePathSound | rekuapi.js:42-48 | whatever is read from a path is exactly what `_get_path` builds it from |
| RekuProtocol.HandleError | rekuapi.js:50-56 | an error passes through; a reply passes exactly when its `Pin` is "true", and otherwise becomes a 430 "invalid Pid" error carrying the reply |
| RekuProtocol.HandleErrorIdempotent | rekuapi.js:84-85 | `set`'s second application of `_handle_error` changes nothing |
| RekuProtocol.ModeMask | rekuapi.js:166-168 | the mask has the time bit exactly when time mode is requested and the boost bit exactly when boost mode is requested, and no other bit |
| RekuProtocol.ModeConfirmedIff | rekuapi.js:196 | the masked status word (here and in the test at line 145) equals the requested mask exactly when each mode bit shows the requested state |
| RekuProtocol.StatusWord | rekuapi.js:196 | the word `&` reads from the status entry is a 32-bit value; a missing entry or non-numeric text reads as 0, and a number already in 32-bit range is read unchanged |
| RekuProtocol.IntToStringRoundTrip | rekuapi.js:94 | the text `toString` gives a number reads back as that number |
| RekuProtocol.IntToString | rekuapi.js:94 | `toString` of an integer is non-empty, starts with a minus sign exactly when the number is negative, and is all digits otherwise |
| RekuProtocol.LooseEqualsText | rekuapi.js:121 | under `==` a number equals its own text, on either side |
| RekuProtocol.LooseEquals | rekuapi.js:121 | the `==` of the setter: a missing entry equals nothing, and an entry equals a value of its own kind and content |
| RekuProtocol.StringifiedKeepsValues | rekuapi.js:92-95 | after `set` stringifies the data, every entry is text and, for the modelled values (integers and text), still denotes the value it replaced |
| RekuApi.Apply | rekuapi.js:119-182 | `reset_mode` sets entries "4" and "9" to 0; `_set_mode` sets them to the requested flags; `_num_setter` writes its key unless the entry already `==` the value; nothing else changes |
| RekuApi.ResetIsClearing | rekuapi.js:133-182 | clearing both modes with `_set_mode` writes what `reset_mode` writes |
| RekuApi.ModeFlagsMatchMask | rekuapi.js:166-182 | the flags `_set_mode` writes are the bits of the mask its poll waits for |
| RekuApi.WriteBody | rekuapi.js:91-96 | the body written back carries the configured pin and the same keys, every value as text, text values unchanged |
| RekuApi.ModeWrite | rekuapi.js:171-182 | the write a mode phase sends holds "1" or "0" under "4" for time mode and under "9" for boost mode, and every other entry of the read data as its text |
| RekuApi.Config.Stringify | rekuapi.js:92-95 | the `forEach` replaces every value by its text form, in place |
| RekuApi.RunSetter | rekuapi.js:119-183 | a setter closure leaves `Apply`'s data, and calls the user callback early exactly when the numeric entry already holds the value |
| RekuApi.RawApi.constructor | rekuapi.js:20-28 | port and instance id come from the nested `args` object, or default to "80" and a freshly generated id |
| RekuApi.RawApi.ResetUuid | rekuapi.js:30-32 | only the instance id changes |
| RekuApi.RawApi.Query | rekuapi.js:58-75 | one request is sent and its reply passes through `_handle_error` |
| RekuApi.RawApi.Get | rekuapi.js:77-80 | sends one read of the configuration's `_get_path` path |
| RekuApi.RawApi.SendConfig | rekuapi.js:91-99 | stringifies the data in place and sends one write of the pin and the stringified data |
| RekuApi.SetRequests | rekuapi.js:82-101 | `set` always reads the configuration's path first, and sends a second request, the write, exactly when the pin was accepted |
| RekuApi.RawApi.Set | rekuapi.js:82-101 | a refused read goes to the result callback with no write; otherwise the data after the setter is written back, and the result callback gets the write's response; the requests appended to the log are exactly `SetRequests` |
| RekuApi.Command | rekuapi.js:108-111 | `COMMANDS[name]` finds an own entry exactly for "time_mode" and "boost_mode", both in configuration "N"; it finds an inherited member, with no `conf_char` or `key`, exactly for the names every object inherits from `Object.prototype`; otherwise it is `undefined` |
| RekuApi.CommandKeys | rekuapi.js:108-111 | the keys of "time_mode" and "boost_mode" are 4 and 9, written "4" and "9": the same entries `_set_mode` writes its two flags to |
| RekuApi.Confirms | rekuapi.js:196 | the success test of the poll (also at line 145) |
| RekuApi.ConfirmsShownModes | rekuapi.js:196 | a reply confirms exactly one mask: the one holding the bits of the modes its status word shows |
| RekuApi.PollAsWritten | rekuapi.js:187-207 | the poll as written: when it does deliver, an error is the timeout of its last read and a success is a confirming reply |
| RekuApi.Poll | rekuapi.js:187-208 | the corrected poll (and the same poll at lines 141-157) makes between 1 and `cnt` reads |
| RekuApi.PollCharacterized | rekuapi.js:187-208 | every read before the last was accepted and unconfirmed; the last read decides: refused pin (430), confirmed (the reply), or timeout (400) only when all `cnt` reads are spent |
| RekuApi.Wait | rekuapi.js:187-208 | the recursive poller delivers `Poll`'s response and sends exactly `Poll`'s number of status reads |
| RekuApi.Phase | rekuapi.js:171-210 | with the corrected poll, a phase succeeds only with a confirming reply, fails only with 400 or 430, and sends between 2 and limit+2 requests |
| RekuApi.PhaseWrites | rekuapi.js:171-210 | a phase's requests: the read of configuration "N", the write of the setter's data when the pin was accepted, then only reads of configuration "B" |
| RekuApi.RunPhase | rekuapi.js:133-211 | with the corrected poll, the `set` and then the poll deliver `Phase`'s response and append exactly the phase's requests to the log |
| RekuApi.ResetMode | rekuapi.js:133-160 | with the corrected poll, `reset_mode` is the phase that writes 0 under "4" and "9" and polls up to 15 times for both mode bits clear, and sends exactly that phase's requests |
| RekuApi.SetModePhase | rekuapi.js:162-211 | with the corrected poll, `_set_mode` is the phase that writes both flags and polls up to 25 times for exactly the requested bits, and sends exactly that phase's requests |
| RekuApi.SetModeSpec | rekuapi.js:213-225 | with the corrected poll, `set_mode` succeeds only if both modes were shown clear and then exactly the requested bits showed; it fails only with 400 or 430; when the clearing phase fails (215-217), and when no mode is requested, it is just the clearing phase, with that phase's response and log; it adds between 2 and 54 requests to the log |
| RekuApi.SetModeWrites | rekuapi.js:213-225 | what `set_mode` writes: the clearing phase writes both flags as 0 when its pin was accepted; when it fails or no mode is requested, the log ends with it; otherwise the second phase's requests follow it, and their write carries the requested flags |
| RekuApi.SetMode | rekuapi.js:213-225 | with the corrected poll, `set_mode` delivers `SetModeSpec`'s response and leaves exactly `SetModeSpec`'s log |
| RekuApi.NumSetterCallsTwice | rekuapi.js:119-129 | the written `_num_setter` calls back twice exactly when the intended one skips the write; otherwise both deliver the same single response |
| RekuApi.NumSetterAsWrittenSpec | rekuapi.js:119-129 | the written `_num_setter` calls back once or twice, last with a response; twice exactly when the pin was accepted and the entry already `==` the value, first with the data |
| RekuApi.NumSetterAsWritten | rekuapi.js:119-129 | every argument the written `_num_setter` hands its callback, in order, and the requests it sends: those of a plain `set`, the write included |
| RekuApi.NumSetterWritesAnyway | rekuapi.js:119-129 | when the entry already holds the value, the written `_num_setter` still writes the unchanged data back, while the intended one only reads |
| RekuApi.NumSet | rekuapi.js:119-129 | the intended `_num_setter`: one callback, with the data and no write when the entry already holds the value, otherwise with the write's response; the requests it appends are exactly those |
| RekuApi.NumSetSpec | rekuapi.js:119-129 | the intended `_num_setter`: a refused pin gives the 430 error after one request; the data comes back, after one request, exactly when the entry already `==` the value; two requests are sent exactly otherwise |
| RekuApi.NumSetWrites | rekuapi.js:119-129 | the intended `_num_setter` reads configuration "N", and writes exactly when the pin was accepted and the entry does not `==` the value, with the value stored under its key |
| RekuApi.Call | rekuapi.js:235-244 | a name `COMMANDS` lacks throws before any request; an inherited name sends the read of configuration "N" and then delivers the 430 error if the pin is refused, and otherwise throws; a known command sets its entry of configuration "N" as `NumSet` does, sending the same requests |

## Left out

- Timers and scheduling are not modelled: `setTimeout`, `clearTimeout`, `setImmediate`, the 200 ms pause between status reads and the real waiting. `RunStep` returns the delay it arms; `Wait` recurses directly.
- TimeMode.CronIterator.Exec: reads the clock once per drain (the parameter `now`), whereas `_exec` reads `new Date()` before each event. A clock that moves during a drain can fire events the model does not.
- TimeMode.CronIterator.Run: requires a state after `reset`. Calling `run` on an iterator that was never reset crashes in the source, and that path is not modelled.
- TimeMode.CronIterator.Reset: requires every source to be freshly parsed (cursor 0, strictly increasing occurrences), which is what `serve` hands it. Cron parsing itself is not part of this model.
- The callbacks, `console.log` output and the `serve`/configuration-file watching of time-mode.js are not modelled, and neither is index.js. The callbacks become the returned sequence of fired events.
- HTTP, `JSON.parse` and `JSON.stringify` are not modelled. A reply is the parsed structure `Reply`, and a write request keeps its configuration and body as structure rather than as text.
- Reply fields other than `Pin` and `data` are not modelled. A reply without a `data` object is not modelled.
- Numbers are integers. A data value is an integer or text. Booleans, arrays and nested objects are not modelled; `set`'s `toString` would write them as "true", "1,2" and "[object Object]", so a nested object is lost. A `null` value, whose `toString` throws, is not modelled either.
- RekuProtocol.IntToString: integers are unbounded, whereas JavaScript numbers are exact only up to 2^53 and `toString` writes 1e21 and above in exponent form ("1e+21"); the digit form and `IntToStringRoundTrip` hold for integers below 1e21 in magnitude.
- RekuProtocol.JsNumber: numeric text is read only in plain decimal (optional minus sign). Whitespace, hexadecimal, exponents and fractions read as NaN. So do a leading '+' and binary or octal literals ("0b1", "0o7"), which JavaScript reads as numbers (`"+1" == 1` is true).
- Bitwise `&`, `|` and `<<` on the status word and masks are modelled arithmetically on the 32-bit word. The mode bits are the same whether `&` reads its operands as signed or as unsigned.
- UUID generation is a parameter (`newId`).
- The constructor, `reset_uuid` and `get` of `Daphne2VVApi` only build or forward to the raw client. They are modelled as the `RawApi` members they forward to.
- RekuApi.NumSetterAsWritten: the `conf_char` argument of `_num_setter` is ignored by the source, which always writes configuration "N"; the model has no such argument.
- RekuApi.Call: the `hotfix` hook is never defined, neither in an own entry nor on an inherited member, so only its absent branch is modelled. The model knows only the members `Object.prototype` has in Node.js and none added to it at run time.
- RekuApi.RawApi.constructor: the nested lookup `args.args.port` / `args.args.uuid` is modelled as written. Those keys do not sit next to `host` and `pin`.
- `CronIterator` keeps exactly one candidate per source, has no check for a clock that goes backwards, and passes no stage to its callback. `reset` on an empty list succeeds; only the next `next()` fails.

## Findings

| source | as written | input that shows it | evidently intended | confidence | as-written member | corrected member |
|---|---|---|---|---|---|---|
| rekuapi.js:189-192 | the status poll (also at lines 143-145) reads `res.data['0']` before checking whether `res` is an Error; `reset_mode` never checks at all | a status read whose reply has `Pin` other than "true": `_handle_error` turns it into an Error without `data`, so `res.data['0']` throws a TypeError and the callback is never called | deliver the 430 error to the callback | not executed | RekuApi.PollAsWrittenThrows, RekuApi.PollRefusedPinThrows | RekuApi.Poll, RekuApi.PollCharacterized, RekuApi.Wait, RekuApi.Phase, RekuApi.RunPhase, RekuApi.ResetMode, RekuApi.SetModePhase, RekuApi.SetModeSpec, RekuApi.SetMode |
| rekuapi.js:119-128 | the `return` after `cb(config)` leaves only the setter closure, so `set` still writes the data and calls `cb` again with the write's response | configuration "N" already holds "1" under key "4" and `call("time_mode", 1)` is made: the callback runs twice and a write is still sent | call back once with the data and send no write | not executed | RekuApi.NumSetterAsWritten, RekuApi.NumSetterCallsTwice, RekuApi.NumSetterAlreadySet, RekuApi.NumSetterWritesAnyway | RekuApi.NumSet, RekuApi.Call |
