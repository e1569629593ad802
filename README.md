# Guitar input path and hit/miss bookkeeping, in Dafny

This project models the part of the rhythm game that turns what the
guitar sends over its serial port into hits and misses on screen:

- **`ListenerGuitarra`** (`listener.dfy`, module `GuitarListener`) reads
  lines of the form `<digits>;<1|0>` from the serial port, skips malformed
  ones, and keeps the previous accepted sample in a one-slot buffer. When a
  new sample's code is strictly within the tolerance `range` of the
  buffered one and its on/off flag has flipped, it calls every registered
  callback with the new sample, in registration order. It also models the
  `range`, `input_port` and `callback` setters and the `start`, `stop` and
  `close` lifecycle flags. `_loop` is the specification function `Run`,
  a left fold of `Step` over the lines read. The methods `ProcessLine` and
  `Loop` are proved against `Step` and `Run`.
- **`InterfaceGuitarra`** (`interface.dfy`, module `GuitarInterface`)
  checks its tolerance when it is built. `atribui_notas` turns the keys of
  its code → note-name dictionary into integer codes. `_callback` resolves
  each sample into the named notes whose code is within the inclusive
  tolerance (the function `Resolve`). `start` registers a callback with the
  listener, hands it the port and starts it.
- **`Jogo`** (`game.dfy`, module `Game`) holds which colours are pressed
  (`inputs`) and the notes on screen (`notas`).
  - `_callback_interface` records a colour's state and, on a press, removes
    the notes of that colour inside the hit window.
  - `update` moves every note by one step and drops the ones past the late
    limit.
  - `checa_eventos` turns the keys a, s, d, f and g into `nota1` … `nota5`.
  The list filters are the functions `Sobreviventes`, `Restantes` and
  `Intactas`. The methods are proved against them, and lemmas prove what
  each filter keeps and that it keeps the notes in order.

Supporting modules:

- `Wrappers` holds `Option` and `Result`.
- `PyText` holds the Python `str` operations the parser relies on: `split`,
  `strip`, `isnumeric`, and `int()`/`float()` of a digit string.
- `SerialPorts` holds a serial port reduced to whether the device exists
  and whether the port is open.

The callbacks are opaque ids (`CallbackId`); a `Dispatch` records one call.
Lines come in already read, either as decoded text or as a line that failed
to decode. Sensor codes are integers. Tolerances and note positions are
exact reals. The distance a note moves per frame is the abstract constant
`passo`.

Behaviour of the code worth knowing:

- The listener's `stop` changes nothing: it only takes and releases the
  lock. Its docstring (`listenerguitarra.py:92`) says it stops capturing the
  port, but the thread keeps running.
- The listener's `range` setter clamps floats into [0, 0.5], so 0 is a
  possible tolerance, and a tolerance of 0 admits no edge.
- Two `start` calls on an interface do register its callback twice.
  However, the second `start` hands the listener the port it already
  holds. The `input_port` setter closes the previously held port, which is
  that same port, so the loop stops and nothing is delivered at all
  (`StartTwiceClosesPort`).

## Model

| member | source | states |
|---|---|---|
| PyText.StripPadded | jogo/comunicacao/guitarra/listenerguitarra.py:108 | `strip()` gives back any whitespace-free-at-the-ends text padded with whitespace on both sides |
| PyText.TrimLeftRemovesLeadingSpace | jogo/comunicacao/guitarra/listenerguitarra.py:108 | the left strip drops exactly the leading whitespace |
| PyText.TrimRightRemovesTrailingSpace | jogo/comunicacao/guitarra/listenerguitarra.py:108 | the right strip drops exactly the trailing whitespace |
| PyText.StripTrimmed | jogo/comunicacao/guitarra/listenerguitarra.py:108 | `strip()` leaves no whitespace at either end |
| PyText.Split | jogo/comunicacao/guitarra/listenerguitarra.py:108 | `split(';')` yields one more piece than there are separators, and no piece contains the separator |
| PyText.JoinSplit | jogo/comunicacao/guitarra/listenerguitarra.py:108 | joining the pieces of a split with the separator gives back the line |
| PyText.SplitJoin | jogo/comunicacao/guitarra/listenerguitarra.py:108 | splitting a join of separator-free pieces gives back the pieces |
| PyText.SplitTwoFields | jogo/comunicacao/guitarra/listenerguitarra.py:108-109 | a line splits into exactly two fields iff it holds exactly one separator, and the fields are the text on either side of it |
| PyText.ToDigits | jogo/comunicacao/guitarra/listenerguitarra.py:112-114 | the decimal digits of a natural number are numeric, have no leading zero, and denote that number again |
| PyText.ParseFormatInt | jogo/comunicacao/guitarra/interfaceguitarra.py:35 | `int(str(n)) == n` for every integer |
| PyText.ParseInt | jogo/comunicacao/guitarra/interfaceguitarra.py:35 | defines `int()` of a string: optional surrounding whitespace and sign, then decimal digits; anything else is the `ValueError` case |
| GuitarListener.ParseLine | jogo/comunicacao/guitarra/listenerguitarra.py:99-118 | the per-line parse; an accepted line always has a non-negative code |
| GuitarListener.ParseNeedsOneSeparator | jogo/comunicacao/guitarra/listenerguitarra.py:108-110 | a line without exactly one `;` is skipped |
| GuitarListener.ParseAtSeparator | jogo/comunicacao/guitarra/listenerguitarra.py:108-118 | a line with one `;` is accepted iff its stripped first field is numeric and its stripped second field is `"1"` or `"0"`; then the code is the digits' value and `on` holds iff the flag is `"1"` |
| GuitarListener.ParseFields | jogo/comunicacao/guitarra/listenerguitarra.py:108-118 | the same acceptance rule, stated on the text either side of the separator |
| GuitarListener.ParseFormat | jogo/comunicacao/guitarra/listenerguitarra.py:106-118 | every sample the guitar can send, with any whitespace around its fields, parses back to that sample |
| GuitarListener.ParseOneDigit | jogo/comunicacao/guitarra/listenerguitarra.py:106-118 | `"k;0"` and `"k;1"` for a digit k parse to code k, off and on |
| GuitarListener.EdgeOnIntegerCodes | jogo/comunicacao/guitarra/listenerguitarra.py:121-123 | with a tolerance in [0, 0.5], an edge is exactly a flag flip on the same code, and tolerance 0 admits none |
| GuitarListener.FanOut | jogo/comunicacao/guitarra/listenerguitarra.py:125-127 | one call per registered callback, in registration order, each with the new sample |
| GuitarListener.IsEdge | jogo/comunicacao/guitarra/listenerguitarra.py:121-123 | defines the dispatch test: a buffered sample exists, its code is strictly within the tolerance of the new code, and the flag flipped |
| GuitarListener.Step | jogo/comunicacao/guitarra/listenerguitarra.py:101-129 | defines one `_loop` iteration on values: a skipped line changes nothing; an accepted line dispatches on an edge and becomes the buffer |
| GuitarListener.Run | jogo/comunicacao/guitarra/listenerguitarra.py:98-129 | defines `_loop` over the lines read, as a left fold of `Step` |
| GuitarListener.RunNoise | jogo/comunicacao/guitarra/listenerguitarra.py:101-117 | lines that are undecodable or malformed leave the buffer unchanged and call nothing |
| GuitarListener.RunDispatches | jogo/comunicacao/guitarra/listenerguitarra.py:121-127 | every call goes to a registered callback and carries a non-negative code |
| GuitarListener.RunSnoc | jogo/comunicacao/guitarra/listenerguitarra.py:98-129 | reading one more line adds exactly that line's step to the loop's outcome |
| GuitarListener.RunTwo | jogo/comunicacao/guitarra/listenerguitarra.py:98-129 | the loop over two lines is the second line's step after the first line's |
| GuitarListener.FirstSampleNeverDispatches | jogo/comunicacao/guitarra/listenerguitarra.py:121 | with an empty buffer, the first line calls nothing |
| GuitarListener.ScenarioPressSameCode | jogo/comunicacao/guitarra/listenerguitarra.py:96-129 | `"k;0"` then `"k;1"` under the default tolerance calls every callback once with `(k, on)`, which becomes the buffer |
| GuitarListener.ScenarioFarCode | jogo/comunicacao/guitarra/listenerguitarra.py:121-129 | `"1;0"` then `"9;1"` calls nothing; `(9, on)` becomes the buffer |
| GuitarListener.ClampRange | jogo/comunicacao/guitarra/listenerguitarra.py:46-52 | the clamp gives the point of [0, 0.5] nearest to the value, and the value itself when it lies inside |
| GuitarListener.ListenerGuitarra.constructor | jogo/comunicacao/guitarra/listenerguitarra.py:29-38 | no port, no callbacks, tolerance 0.5, not running, no thread, empty buffer |
| GuitarListener.ListenerGuitarra.SetRange | jogo/comunicacao/guitarra/listenerguitarra.py:44-52 | a float is clamped into [0, 0.5]; any other value leaves the tolerance unchanged |
| GuitarListener.ListenerGuitarra.SetInputPort | jogo/comunicacao/guitarra/listenerguitarra.py:58-76 | a closed port is opened first, failing with nothing changed when the device is missing; then the previous port is closed and the new one kept, so re-assigning the same port leaves it closed |
| GuitarListener.ListenerGuitarra.RegisterCallback | jogo/comunicacao/guitarra/listenerguitarra.py:82-89 | the setter appends to the registry and never replaces |
| GuitarListener.ListenerGuitarra.Stop | jogo/comunicacao/guitarra/listenerguitarra.py:91-94 | `stop` changes no state |
| GuitarListener.ListenerGuitarra.ProcessLine | jogo/comunicacao/guitarra/listenerguitarra.py:99-129 | one iteration of `_loop`: a skipped line changes nothing; an accepted line becomes the buffer and, exactly on an edge, goes to every callback in order |
| GuitarListener.ListenerGuitarra.Loop | jogo/comunicacao/guitarra/listenerguitarra.py:96-129 | while running with an open port, the buffer and the calls are those of the left fold `Run` over the lines; otherwise nothing happens |
| GuitarListener.ListenerGuitarra.Start | jogo/comunicacao/guitarra/listenerguitarra.py:131-137 | afterwards the listener runs with one thread; when it already ran, nothing changes |
| GuitarListener.ListenerGuitarra.Close | jogo/comunicacao/guitarra/listenerguitarra.py:139-145 | afterwards it is not running and holds no thread |
| GuitarInterface.Truncate | jogo/comunicacao/guitarra/interfaceguitarra.py:35 | `int()` of a float rounds toward zero |
| GuitarInterface.IntOf | jogo/comunicacao/guitarra/interfaceguitarra.py:35 | defines `int(key)`: a numeric key rounds toward zero, a string key is parsed by `int()`, and `None` is the `ValueError` case |
| GuitarInterface.ConvertedPrefix | jogo/comunicacao/guitarra/interfaceguitarra.py:33-37 | defines the codes `atribui_notas` appends, up to the first key that does not convert; never more codes than keys |
| GuitarInterface.ConvertedPrefixSpec | jogo/comunicacao/guitarra/interfaceguitarra.py:33-37 | the codes appended are the keys' conversions, in key order; all keys convert iff all are appended; otherwise the next key is the first that does not convert |
| GuitarInterface.Lookup | jogo/comunicacao/guitarra/interfaceguitarra.py:48 | the dictionary lookup finds a name only under a numeric key equal to the code, and fails only when there is no such key |
| GuitarInterface.Resolve | jogo/comunicacao/guitarra/interfaceguitarra.py:39-51 | at most one note per bound code, each carrying the sample's flag; a `KeyError` is raised iff some bound code in tolerance has no numeric key |
| GuitarInterface.Matching | jogo/comunicacao/guitarra/interfaceguitarra.py:44-45 | the bound codes within the inclusive tolerance, and only those |
| GuitarInterface.ResolveIsFilterMap | jogo/comunicacao/guitarra/interfaceguitarra.py:44-51 | when every code in tolerance has a name, `_callback` emits exactly the names of the matching codes, in list order, so several matches all emit |
| GuitarInterface.ResolveNoMatch | jogo/comunicacao/guitarra/interfaceguitarra.py:44-45 | a code with no bound value in tolerance emits nothing |
| GuitarInterface.ResolveStopsAtKeyError | jogo/comunicacao/guitarra/interfaceguitarra.py:44-51 | when the k-th code is the first in range with no numeric key, `_callback` raises `KeyError` there after emitting exactly the names of the matching codes before it, in list order |
| GuitarInterface.ResolveExactCode | jogo/comunicacao/guitarra/interfaceguitarra.py:45 | with a tolerance below 1, a bound code matches iff it equals the sample's code, so the note is emitted once per occurrence of that code |
| GuitarInterface.ResolveUniqueCode | jogo/comunicacao/guitarra/interfaceguitarra.py:44-51 | a code bound exactly once resolves to its own name alone |
| GuitarInterface.GameBindings | jogo/core.py:97-103 | the game's bindings have distinct keys that all convert |
| GuitarInterface.GameCodes | jogo/core.py:97-103 | `atribui_notas` on the game's bindings gives the codes 1 … 5 |
| GuitarInterface.GameLookup | jogo/core.py:97-103 | the game's bindings name code k `nota<k>` |
| GuitarInterface.ResolveBoundCode | jogo/core.py:92-103 | with the game's bindings and any calibrated tolerance in (0, 0.5], code k in 1 … 5 resolves to `nota<k>` alone, with the sample's flag |
| GuitarInterface.ResolveUnboundCode | jogo/core.py:92-103 | with the game's bindings and any calibrated tolerance in (0, 0.5], any other code resolves to nothing |
| GuitarInterface.InterfaceGuitarra.constructor | jogo/comunicacao/guitarra/interfaceguitarra.py:20-27 | a fresh idle listener, the port, the callback, the tolerance, and no codes |
| GuitarInterface.InterfaceGuitarra.Create | jogo/comunicacao/guitarra/interfaceguitarra.py:12-29 | construction succeeds iff the tolerance is a float in (0, 0.5], and otherwise fails with an invalid-range error |
| GuitarInterface.InterfaceGuitarra.AtribuiNotas | jogo/comunicacao/guitarra/interfaceguitarra.py:31-37 | keeps the dictionary and appends the converted keys to the codes already held; it fails iff some key does not convert, naming that key, with the codes before it appended |
| GuitarInterface.InterfaceGuitarra.Start | jogo/comunicacao/guitarra/interfaceguitarra.py:53-60 | one more callback registration, then the port hand-over (which may fail to open), then a started listener; the listener only ever holds this interface's port, and the port stays open iff the listener held no port before |
| GuitarInterface.InterfaceGuitarra.Stop | jogo/comunicacao/guitarra/interfaceguitarra.py:62-64 | delegates to the listener's `stop` and changes nothing |
| GuitarInterface.StartedGameInterface | jogo/core.py:84-104 | the game's set-up, with any calibrated tolerance in (0, 0.5], leaves an interface with that tolerance and codes 1 … 5, and a running listener on the open port with the one callback and its default tolerance 0.5 |
| GuitarInterface.StartOnceDelivers | jogo/comunicacao/guitarra/interfaceguitarra.py:53-60 | with any calibrated tolerance and after one `start`, `"k;0"` then `"k;1"` reach the interface once as `(k, on)` and the game once as a press of `nota<k>` |
| GuitarInterface.StartTwiceClosesPort | jogo/comunicacao/guitarra/interfaceguitarra.py:58-60 | after two `start` calls the callback is registered twice, but the port is closed and nothing is delivered |
| Game.SobreviventesMembers | jogo/core.py:152-161 | a press keeps exactly the notes it does not hit |
| Game.SobreviventesOrdered | jogo/core.py:152-161 | the notes a press keeps stay in their order, and the list stays free of repeats |
| Game.SobreviventesIdempotent | jogo/core.py:152-161 | a second press of the same colour removes nothing more |
| Game.SobreviventesIsIntactas | jogo/core.py:152-161 | the filter of one press is the set-wise filter `Intactas` for that one colour |
| Game.RestantesMembers | jogo/core.py:199-206 | a frame keeps exactly the notes not past the limit |
| Game.RestantesOrdered | jogo/core.py:199-206 | the notes a frame keeps stay in their order, and the list stays free of repeats |
| Game.KeyNote | jogo/core.py:180-190 | a key event stands for a note iff it is on a, s, d, f or g; the i-th key is `nota<i+1>`, on iff the event is a key-down |
| Game.ApplyEventsRunning | jogo/core.py:175-177 | the game still runs after a batch of events iff it ran before and the batch holds no quit |
| Game.ApplyEventsPressed | jogo/core.py:180-190 | a colour is pressed in a batch iff some key-down of the batch stands for a note of that colour |
| Game.ApplyEventsInputs | jogo/core.py:180-190 | a colour's held state after a batch is set by the last key event for it; a colour with no key event keeps its state |
| Game.ApplyEventsLastTouch | jogo/core.py:180-190 | the last key event of a batch for a colour decides whether that colour is held |
| Game.ApplyEventsUntouched | jogo/core.py:180-190 | a batch with no key event for a colour leaves that colour's state alone |
| Game.IntactasNoPress | jogo/core.py:152-161 | with no colour pressed, every note stays |
| Game.IntactasMembers | jogo/core.py:152-161 | a batch of presses keeps exactly the notes none of its colours hits |
| Game.IntactasOrdered | jogo/core.py:152-161 | the notes a batch of presses keeps stay in their order, and the list stays free of repeats |
| Game.IntactasOneMore | jogo/core.py:152-161 | presses do not move notes, so a sequence of presses removes what pressing all their colours at once removes |
| Game.InitialInputs | jogo/core.py:56 | every colour of the game is present and released |
| Game.Jogo.constructor | jogo/core.py:50-56 | the loaded notes, every colour released, not running, no music |
| Game.Jogo.CallbackInterface | jogo/core.py:140-161 | sets the note's colour to its flag and leaves every other colour unchanged; on a press removes exactly the notes of that colour inside the hit window, keeping the order; on a release keeps every note |
| Game.Jogo.Update | jogo/core.py:192-209 | every note advances by the same step, and the notes kept, in order, are exactly those now not past the late limit |
| Game.Jogo.ChecaEventos | jogo/core.py:169-190 | once the music has stopped after playing, the game stops and no event is looked at; otherwise the running flag, the held colours and the notes left are those the event batch determines |
| Game.Jogo.HandleEvent | jogo/core.py:175-190 | one event: a quit stops the game, and a key event goes to `_callback_interface` as its note |

## Left out

- Threads, the lock and `Thread.join`: `_loop` is a method called on the lines the port delivers, and `start`/`close` only set the running and thread flags. The callback list and the port are never changed while the loop runs.
- `_callback_interface` runs on the listener thread without the game's lock, racing `update`. Concurrency is not modelled.
- The serial port itself (`Serial`, `readline`, the blocking read, `open`/`close`) is reduced to an "exists" flag and an "open" flag. `bytes.decode` is reduced to a decoded-or-not line.
- The diagnostic `print` calls, including the port name printed by the `input_port` setter.
- `str.isnumeric` is restricted to the ASCII digits, so `ParseLine` skips lines the program accepts or crashes on. Unicode decimal digits such as `٣` or `３` pass `isnumeric()` and `float()` reads them, so the program takes `"٣;1"` as code 3. Other numeric characters such as `½` pass `isnumeric()`, and `float()` then raises an uncaught `ValueError` that ends the listener thread.
- `int()` of a string is modelled without Python's underscore digit separators and without non-ASCII digits.
- Codes are exact integers. `float()` of a very long digit string loses precision, and that rounding is not modelled.
- Float keys are exact reals; NaN and infinities are not modelled.
- GuitarListener.ListenerGuitarra.SetRange: a float is an exact real (`RangeArg`), so NaN is not modelled. The program stores `float('nan')` as the tolerance unchanged (no comparison holds), and every edge test then fails.
- Python's `isinstance(x, float)` test is a `RangeArg` that is either a float or not.
- `InterfaceBase.atribui_notas` and the building of `_dicionario` are not part of this model. The dictionary is taken as the bindings given, in insertion order.
- A `KeyError` raised by the interface's `_callback` (a bound code with no numeric dictionary key) ends the listener thread in the program. `Resolve` reports it as `keyError` with the notes emitted before it (`ResolveStopsAtKeyError`), but `Loop` does not stop on it.
- Game.Jogo.CallbackInterface: a name missing from `MAPA_NOME_NOTAS` raises a `KeyError` that the handler does not catch. It is a precondition rather than a modelled crash.
- Game.Jogo.Update: the step is the abstract constant `passo`, not the float expression of `MILLIS`, `ALTURA_NOTA` and `bpm`. The kept notes are stated as those whose position before the step was at most `LIMITE_ATRASADO − passo`. With exact reals this is the same as a new position of at most `LIMITE_ATRASADO`.
- Everything pygame: `Tela` drawing, `display.flip`, the event queue (events arrive as a sequence), `mixer.music.get_busy` (a parameter), the clock and `loop`.
- `_carregar_notas` (file reading with a mock fallback), the drum/MIDI path, the calibration wizards, and `_feedback_interface` are not part of this model.
- The user callback behind a listener registration is an opaque id. What it does is shown only through `Resolve` and `StartOnceDelivers`.
