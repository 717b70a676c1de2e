# alexaroku bridge: a Dafny model

The bridge in `server/server.js` turns HTTP requests into timed lists of Roku
ECP (External Control Protocol) commands. This project models and proves four
parts of its sequential logic:

- **Discovery** (`discovery.dfy`, module `Discovery`). The shared field
  `rokuConfig.address` is a class field. The SSDP response listener overwrites
  it with the response's `LOCATION` header. `searchForRoku` sends a search for
  `roku:ecp` only while the address is `null` or `undefined`. An address is
  `Undefined`, `Null` or `Location(url)`, because JavaScript's `== null`
  matches both missing forms and `address + "..."` spells them out.
  `Replay` folds a series of ticks and responses into a state, and the
  lemmas about it state the discovery promises.
- **Keystroke translator** (`keystrokes.dfy`, module `Keystrokes`).
  `createTypeSequence` is a method with the source's loop, proved against the
  function `TypeSequence`. A decoder `TypedText` reads the text back out of a
  command list. The round trip shows that no character is dropped, escaped or
  merged, and that the space alone goes to `Lit_%20`.
- **Sequence runner** (`sequencer.dfy`, module `Sequencer`). `postSequence`
  is a class holding the caller's array, which each `shift()` shortens, and
  the trace of effects performed so far: POSTs, timers and the callback. A
  run waits in a phase naming the one event that resumes it, a POST's
  response or a timer. The class invariant says that the trace so far plus
  what is still pending equals the reference trace `Trace(original)`. Lemmas
  about `Trace` state the ordering, completion, halting and concatenation
  promises.
- **URL builders and dispatch** (`commands.dfy`, module `Commands`). The
  fourteen channel helpers become one `Shortcut` datatype with a parse-back
  round trip. The searchroku and searchplex lists are
  `prefix ++ createTypeSequence(text) ++ suffix`. `handleRequest` looks a path
  up in a handler table.

Module `Steps` holds a list element as `typeof` sees it: a string (`Action`),
a number (`Delay`) or anything else (`Other`). Module `Wrappers` holds
`Option`.

Notes on how the code behaves, which the model follows:

- The URLs in a command list embed the address as it was when the list was
  built. They are not resolved when each step runs.
- `post` sets no timeout, so a POST that neither fails nor gets a response
  leaves its run waiting in `AwaitingResponse` for good. A POST that fails,
  for example on a refused connection, is not modelled. `http.request` has
  no `'error'` listener, so Node raises the failure as an uncaught exception
  and the process exits, ending every run and the server itself.
- The handler is a closure. Only `postSequence` itself, a fired timer and a
  POST's response can enter it, so the next element starts only after the
  previous element's response or timer.
- A list element that is neither string nor number is shifted off, and the
  run stops without calling the callback.
- Despite the comment at line 67, the translator filters nothing.
- `nowTV` launches channel 20242, although its comment says 2285.

## Model

| member | source | states |
|---|---|---|
| Keystrokes.TypeSequence | server/server.js:68-79 | The list has exactly 2·\|text\| elements. Element 2k is the keystroke URL for character k and element 2k+1 is the number 100. Every element is a string or a number. |
| Keystrokes.KeyUrl | server/server.js:71-75 | A keystroke URL is the address followed by a `keypress/Lit_` command. Any character other than a space is its last code unit, verbatim, right after `Lit_`. A space ends in `%20`. |
| Keystrokes.CreateTypeSequence | server/server.js:68-79 | The `for` loop that pushes one URL and one `100` per character returns that same list, element by element, and equals `TypeSequence`. |
| Keystrokes.KeyCharRoundTrip | server/server.js:71-75 | A space becomes `address + "keypress/Lit_%20"`. Every other character c becomes `address + "keypress/Lit_" + c`, verbatim. Reading the character back from the URL gives c. |
| Keystrokes.TypeSequenceRoundTrip | server/server.js:68-79 | No character is filtered, escaped or merged: the text reads back unchanged from the list. |
| Keystrokes.TypeSequenceAppend | server/server.js:70-77 | Translating `a + b` gives the translation of `a` followed by that of `b`, so the order of characters is kept. |
| Sequencer.Trace | server/server.js:44-63 | The reference run of postSequence when every POST is answered and every timer fires. It has at most one effect per element plus the callback. The callback appears only if one was given and every element was a string or a number. |
| Sequencer.EffectsOf | server/server.js:51-57 | A list of strings and numbers produces one effect per element, in list order: a POST for a string and a timer for a number. The callback is never one of them. |
| Sequencer.TraceOfKnown | server/server.js:44-63 | When every element is a string or a number and every POST is answered, the run posts and waits element by element, in order, and then calls the callback if one was given. |
| Sequencer.CallbackExactlyOnce | server/server.js:46-48 | Under the same condition, a given callback is called exactly once, as the last effect after all \|q\| elements. Without a callback there is none. An empty list calls it at once, with no POST and no timer. |
| Sequencer.TraceStopsAtOther | server/server.js:50-60 | At the first element of unknown type, the run stops. The elements before it take effect, nothing after it does, and the callback is never called. |
| Sequencer.TraceAppend | server/server.js:44-63 | Running `a + b` performs all of `a`, in order, before anything of `b`. |
| Sequencer.PostSequence.constructor | server/server.js:44-63 | `postSequence` enters the handler once. An empty array finishes with only the callback. Otherwise the first element is shifted off and posted, timed or rejected. The class invariant holds. |
| Sequencer.PostSequence.Handler | server/server.js:45-61 | The handler can be entered only from `Ready`, the state that `postSequence`, a fired timer or a POST's response puts the run in. A run awaiting a response or a timer cannot skip ahead. On an empty array it calls the callback, if any, and finishes. Otherwise it shifts off exactly one element: a string is POSTed and the run awaits the response, a number arms a timer, and anything else halts the run. The invariant is kept. |
| Sequencer.PostSequence.OnResponse | server/server.js:54-57 | Only a POST's response resumes a run awaiting one. It then does exactly one handler step. |
| Sequencer.PostSequence.OnTimer | server/server.js:52 | Only the timer resumes a run awaiting it. It then does exactly one handler step. |
| Sequencer.PostSequence.DeliverAll | server/server.js:44-63 | If every pending continuation is delivered, the run halts or finishes, and its trace is exactly the reference trace. It finishes exactly when every element was a string or a number, and then the caller's array is empty. After a halt, the array still holds every element after the rejected one, unchanged. |
| Sequencer.StartConsistent | server/server.js:44-62 | A fresh run has performed nothing and still holds the whole array, and the run invariant holds for it. |
| Sequencer.ShiftConsistent | server/server.js:50-60 | One handler step on a non-empty array shifts off the front element only. It performs a POST for a string, a timer for a number and nothing for anything else, and then waits for the response, waits for the timer or halts. Performed plus pending still equals the reference trace. |
| Sequencer.FinishConsistent | server/server.js:46-48 | A handler step on an empty array calls the callback, if one was given, and finishes. Nothing is left pending. |
| Sequencer.SettledRun | server/server.js:44-63 | A run that waits for nothing more has performed exactly the reference trace. It finished exactly when every element was a string or a number, and then the array is empty. Otherwise it halted right after the first element of another type, and the rest of the array is untouched. |
| Discovery.RokuConfig.constructor | server/server.js:8-11 | Discovery starts from the configured address and with no search sent. |
| Discovery.RokuConfig.OnResponse | server/server.js:14-17 | An SSDP response overwrites the address with its `LOCATION` value, unconditionally, and sends nothing. |
| Discovery.RokuConfig.SearchForRoku | server/server.js:20-24 | A search for `roku:ecp` is sent exactly when the address is null or undefined. The address never changes. |
| Discovery.Apply | server/server.js:14-24 | Only a response changes the address. An event sends at most one search and never takes one back. It sends one exactly when it is a tick and the address is null or undefined. |
| Discovery.Replay | server/server.js:14-24 | Over a series of events, searches never shrink and grow by at most one per event. |
| Discovery.SearchesGrow | server/server.js:20-24 | Searches only accumulate: earlier ones are never taken back. |
| Discovery.LastResponseWins | server/server.js:14-17 | After any series of events, the address is the one carried by the last response. |
| Discovery.TicksKeepAddress | server/server.js:19-24 | Ticks alone never change the address. |
| Discovery.TicksSearchOnlyWhileUnknown | server/server.js:19-24 | With only ticks, each tick searches once while the address is unknown, and none searches once it is known. |
| Discovery.FoundStopsSearching | server/server.js:14-24 | After a response that brings a location, later ticks send no further search, as long as no other response arrives. |
| Commands.ShortcutUrl | server/server.js:677-743 | Each helper returns the address followed by a command that names that helper. |
| Commands.ShortcutRoundTrip | server/server.js:677-743 | Each helper's URL is the address followed by that helper's own command, and that command names the helper alone. |
| Commands.CommandNamesShortcut | server/server.js:677-743 | Each helper's command path reads back to that helper and no other. |
| Commands.ShortcutUrlInjective | server/server.js:677-743 | No two helpers produce the same URL for the same address. |
| Commands.SearchRokuPrefix | server/server.js:368-383 | The searchroku list before the text has 15 elements, all strings or numbers. |
| Commands.SearchRokuSuffix | server/server.js:384-401 | The searchroku list after the text has 16 elements, all strings or numbers. |
| Commands.SearchPlexPrefix | server/server.js:409-418 | The searchplex list before the text has 9 elements, all strings or numbers. |
| Commands.SearchPlexSuffix | server/server.js:419-436 | The searchplex list after the text has 16 elements, all strings or numbers. |
| Commands.DownTwoSequence | server/server.js:111-119 | The downtwo list has 4 elements, all strings or numbers. |
| Commands.Bracketed | server/server.js:368-436 | A searchroku or searchplex list has \|prefix\| + 2·\|text\| + \|suffix\| elements. When the fixed parts hold only strings and numbers, so does the whole list. |
| Commands.BracketedParts | server/server.js:368-436 | `[].concat(prefix, createTypeSequence(text), suffix)` has length \|prefix\| + 2·\|text\| + \|suffix\|. It holds the prefix, then exactly `createTypeSequence(text)`, from which the text reads back, then the suffix, in that order. |
| Commands.BracketedRun | server/server.js:368-437 | Running such a list performs all of the prefix, then the keystrokes, then the suffix, then the callback. |
| Commands.RouteWork | server/server.js:346-662 | Every registered handler starts some work: a single POST or a command list. |
| Commands.HandlerPaths | server/server.js:93-663 | Every path in the handler table lies under `/roku/`. |
| Commands.HandleRequest | server/server.js:666-673 | A path in the table is answered "OK" and runs its handler against the address as the current `rokuConfig.address` renders it. Any other path is answered with an empty body and starts nothing. Both directions are stated. |
| Commands.RouteRunsFinish | server/server.js:346-662 | Every list a handler starts consists of strings and numbers only. So if every POST is answered, it runs to the end and calls its callback, if any, exactly at the end. |
| Commands.SearchRokuRequest | server/server.js:365-405 | A searchroku request is answered "OK". It starts a run of 31 + 2·\|text\| elements without a callback, the text reads back from positions 15 to 15 + 2·\|text\|, and the run performs prefix, keystrokes and suffix in order. |
| Commands.TypeRequest | server/server.js:346-355 | A type request is answered "OK". The run's list reads back to the text, and the run makes 2·\|text\| + 1 effects, the last of them the single callback. |

## Left out

- The transport inside `post` (server/server.js:27-40) is not modelled: URL parsing, `http.request`, `req.end`, and draining the response with `res.on("data")`. A POST is a `Post(url)` effect, and its response is the `OnResponse` event. There is no failure event. The code has no `'error'` listener, so a failed request ends the whole process with an uncaught exception, which the model does not represent.
- Wall-clock time from `setTimeout` and `setInterval` is not modelled. A delay is a `Wait(ms)` effect and the timer firing is the `OnTimer` event. The interval is a `Tick` event, and the startup call to `searchForRoku` is a `Tick` like the others.
- A delay element is modelled as an integer. JavaScript numbers that are fractional or `NaN`, which `setTimeout` would also accept, are not represented.
- The SSDP client and the UDP transport are not modelled. Neither are YAML loading of `roku.yaml`, nor the HTTP server start-up and listening port (server/server.js:1-11, 750-752). The configured address is a constructor parameter.
- `getRequestData`'s streaming of the request body (server/server.js:81-89) is not modelled, nor `data.replace().toLowerCase()`. The text handed to the translator is a parameter, already lower-cased.
- JavaScript strings are UTF-16 code units, and the model uses Dafny characters. A character outside the Basic Multilingual Plane would be split by JavaScript into two surrogate keystrokes, and that is not modelled.
- Concurrency is not modelled: neither interleaving between concurrently running lists nor between a list and a discovery write. Each `PostSequence` object is one run, on its own.
- `console.log` output is not modelled ("Found Roku", "Posting", "unknown type", "Unknown request URL").
- Not all literal command tables are transcribed. Left out are playlast, downthree to downfive, uptwo to upfive, righttwo to rightfive, lefttwo to leftfive, captionson, captionsoff, playlastyoutube, nextepisode and lastepisode (server/server.js:95-344, 441-550). Their only logic is a constant list handed to `postSequence`. `Handlers` holds the other 30 routes, so it answers those paths as unknown. `HandleRequest` is stated for any table.
- Commands.HandleRequest: a plain JavaScript object also finds inherited properties such as `constructor`. The model's table has only its own keys.
- The routes that call `post` directly (playpause, power, rewind, fastforward, up, down, back, left, instantreplay, right, select) are modelled as a single POST. What happens to their unread responses is not modelled.
