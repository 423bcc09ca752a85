# panpigo: the status and command bridge, modelled in Dafny

panpigo runs the pianobar music player as a child process. It serves its
state to browser clients over a websocket. This project models the
deterministic core of `panpigo.go`:

- **Status lines** (`processPianobarOutput`). Each line pianobar prints is split
  on tabs and switched on its first field:
  - `timerem` lines are passed on to clients;
  - `current` lines update the song map `currentSong`;
  - `station` lines update the map `stationList`.
- **Join snapshot** (`updateNewClient`). A newly connected client is sent
  every song value and then every station value.
- **Command encoding** (`givePianobarInput`). A client message
  `station\t<id>` or `command\t<text>` becomes the text written to
  pianobar's standard input.

Modules, one file each:

- `GoStrings` (`go_strings.dfy`) models the Go library behaviour the core relies on:
  - `strings.Split` on one character, with `Join` as its inverse;
  - slice indexing, which panics when the index is out of range;
  - `strings.Replace(s, old, "", -1)`.
- `StatusLine` (`status_line.dfy`) decodes one status line into an `Event`.
- `PlayerState` (`player_state.dfy`) holds the rest of the status side:
  - the class `StatusProcessor`, which holds the two maps and updates them
    in place (`ProcessLine`, `ProcessOutput`);
  - `Snapshot`, the join snapshot;
  - the specification functions `Apply` (one line) and `Run` (a sequence
    of lines), with the lemmas about them.
- `Commands` (`commands.dfy`) holds `Encode`, the loop `GivePianobarInput`,
  and the lemmas about both.
- `Wrappers` (`wrappers.dfy`) defines `Option` and `Result`.

A Go runtime panic is modelled as `Failure(IndexOutOfRange(index, length))`.
In the program an unrecovered panic ends the whole process: the status
loop, the command loop, the broadcast and the HTTP server all stop. The
model keeps only the part it can state: the failing step changes nothing,
and the loop that raised it returns the panic and processes no further
line or message.

Behaviour that follows the code rather than its intuitive reading:

- A changed `current` field stores the **whole raw line** under its key,
  not the value (panpigo.go:133). Later lines compare their value against
  that stored line. So after the first update, a repeated value counts as a
  change, and the "no redundant update" check only drops a value equal to
  the initial `""` (`PlayerState.ApplyCurrentAfterUpdate`,
  `PlayerState.RunRepeatedCurrent`).
- The value of a `current` line is the text between the first and the
  second `=` of its second field. Text after a second `=` is not compared.
- A station id is the key with **every** occurrence of `station` deleted,
  not only a leading one: `station1station` gives `1`
  (`StatusLine.StationIdSkipsWord`, `StatusLine.StationIdRemovesEveryOccurrence`).
- A station entry holds the whole raw line, including its `station\t` tag:
  `station\tstation7=My Station` stores that entire line under `"7"`.
- A `current` line whose key is a song field but has no `=` panics, and so does
  a `current` or `station` line without a tab. A `current` line whose key
  is unknown never looks at its value, so it does not panic even without `=`.
  A `station` line without `=` does not panic: its key is the whole second field.
- A `station\t<id>` or `command\t<text>` client message without a tab panics.
  Text after a second tab in a client message is dropped.

## Model

| member | source | states |
|---|---|---|
| GoStrings.Split | panpigo.go:125 | a split always has at least one piece and no piece contains the separator |
| GoStrings.SplitCount | panpigo.go:125 | there is exactly one more piece than separators, so a line without a tab has a single field |
| GoStrings.JoinSplit | panpigo.go:125 | splitting loses nothing: joining the pieces with the separator gives the text back |
| GoStrings.SplitJoin | panpigo.go:130 | separator-free pieces survive join-then-split unchanged |
| GoStrings.SplitDelimited | panpigo.go:125-126 | a separator-free prefix followed by a separator or the end is exactly the first field |
| GoStrings.RemoveAll | panpigo.go:139 | deleting occurrences never lengthens the key and only drops characters from it |
| GoStrings.RemoveAllAbsent | panpigo.go:139 | a key without the pattern is left unchanged |
| StatusLine.Tag | panpigo.go:125-126 | the switch tag is a tab-free prefix of the line |
| StatusLine.Parse | panpigo.go:125-141 | parsing panics exactly for a `current` or `station` line without a tab; the event kind matches the tag; for a `current` line, the value lookup fails (index 1 of a one-piece split) exactly when its second field has no `=` |
| StatusLine.StationId | panpigo.go:139 | the station id is never longer than its key |
| StatusLine.ParseTimerem | panpigo.go:127 | a line whose first field is `timerem` is a time event, whatever follows |
| StatusLine.ParseOther | panpigo.go:126-144 | any other first field is ignored |
| StatusLine.ParseCurrentValue | panpigo.go:130-132 | the key is the text before the first `=`; the value is the text between the first and the second `=` |
| StatusLine.ParseCurrentKey | panpigo.go:130-131 | the key of a `current` line is its second field up to the first `=` |
| StatusLine.ParseCurrentNoValue | panpigo.go:130-132 | without `=` the whole field is the key and the value lookup is a pending index panic |
| StatusLine.ParseMissingField | panpigo.go:129-137 | `current` or `station` with no tab panics on the second field |
| StatusLine.ParseStation | panpigo.go:137-138 | the key of a `station` line is its second field up to the first `=` |
| StatusLine.StationIdOfPrefixed | panpigo.go:139 | `station<id>` with no `station` inside `<id>` gives `<id>` |
| StatusLine.StationIdPlain | panpigo.go:139 | a key without the word `station` is its own id |
| StatusLine.StationIdSkipsWord | panpigo.go:139 | for every key `a + "station" + b` where no occurrence of the word starts inside `a`, the id is `a` followed by the id of `b`: the word is deleted wherever it stands and the scan goes on after it |
| StatusLine.StationIdBetweenWords | panpigo.go:139 | `station<id>station` gives `<id>` for every id in which no occurrence of the word starts: the trailing word is deleted too |
| StatusLine.StationIdRemovesEveryOccurrence | panpigo.go:139 | the instance `station1station` gives `1`, where deleting only the prefix would give `1station` |
| PlayerState.Apply | panpigo.go:125-144 | one line keeps the song's key set, never removes a station, emits only the line itself and only for `timerem`/`current`, and panics only with index 1 of length 1 |
| PlayerState.Run | panpigo.go:116-146 | a run keeps the song's key set, never removes stations, and emits at most one message per line |
| PlayerState.ApplyTimerem | panpigo.go:127-128 | a `timerem` line is emitted verbatim and changes neither map |
| PlayerState.ApplyOtherTag | panpigo.go:126-144 | a line with an unknown tag changes nothing and emits nothing |
| PlayerState.ApplyCurrentChanged | panpigo.go:129-135 | a changed value under a song key stores the whole raw line under that key only, and the line is emitted once |
| PlayerState.ApplyCurrentSame | panpigo.go:131-132 | a value equal to the stored string changes nothing and emits nothing |
| PlayerState.ApplyCurrentAfterUpdate | panpigo.go:131-133 | once a song field holds a stored line (which contains `=`), every valued line for that key is a change: it is stored and emitted |
| PlayerState.RunRepeatedCurrent | panpigo.go:129-135 | the same `current` line read twice in a row is emitted twice, or (when its value equals the stored string) dropped both times; it is never dropped as a repeat of itself |
| PlayerState.ApplyCurrentUnknownKey | panpigo.go:131-132 | a key that is not a song field changes nothing and emits nothing, even without `=` |
| PlayerState.ApplyCurrentNoValue | panpigo.go:132 | a song key without `=` panics |
| PlayerState.ApplyMissingField | panpigo.go:129-137 | `current` or `station` without a tab panics |
| PlayerState.ApplyStationCount | panpigo.go:138 | the `stationCount` line changes nothing |
| PlayerState.ApplyStation | panpigo.go:137-141 | any other station line stores the whole raw line under the derived id, touches no other entry, and emits nothing |
| PlayerState.ApplyStationEffect | panpigo.go:136-141 | the station list changes only at the entry the line targets |
| PlayerState.RunWellformed | panpigo.go:28-35 | from the initial maps, the song has exactly its five keys and the key `"0"` remains after any run |
| PlayerState.RunEmitsInputLines | panpigo.go:127-134 | every message sent on is one of the input lines and is a `timerem` or `current` line |
| PlayerState.RunEmitsInOrder | panpigo.go:116-134 | the emitted lines are a subsequence of the input: they appear in the order they were read |
| PlayerState.RunKeepsStation | panpigo.go:136-141 | a station entry that no line targets keeps its value |
| PlayerState.RunKeepsPlaceholder | panpigo.go:28 | `"0" -> "Waiting"` persists until a line targets id `"0"` |
| PlayerState.RunLastWriteWins | panpigo.go:140 | after a run without a panic, an entry holds the last line that targeted it |
| PlayerState.StatusProcessor.constructor | panpigo.go:28-35 | five empty song fields and the placeholder station |
| PlayerState.StatusProcessor.ProcessLine | panpigo.go:125-144 | the maps change as `Apply` says and the emitted line is `Apply`'s; a panic leaves the maps unchanged; the song key set is kept and station keys only grow |
| PlayerState.StatusProcessor.ProcessOutput | panpigo.go:116-146 | the loop over the lines ends in `Run`'s store, having emitted `Run`'s messages in order, stopped by `Run`'s panic |
| PlayerState.StatusProcessor.Snapshot | panpigo.go:93-107 | on any state the processor reaches, the song block is exactly five messages; one message per song field and then one per station; each block is, as a multiset, exactly that map's values; a message is delivered exactly when its send did not fail |
| PlayerState.SendValues | panpigo.go:94-99 | one range loop sends every value of the map once, in some order, whatever sends fail |
| PlayerState.BagRemove | panpigo.go:94-105 | the values of a map can be counted starting from any key |
| PlayerState.BagMembers | panpigo.go:94-105 | a value is sent exactly when some key maps to it |
| PlayerState.KeptAt | panpigo.go:95-98 | position by position: the message at any position is delivered exactly when its send did not fail, between what is delivered before it and after it; a failure drops that one send and no other copy of the same value |
| PlayerState.KeptNoFailures | panpigo.go:95-98 | with no failing sends, every message is delivered, in order |
| PlayerState.InitialSnapshot | panpigo.go:28-35 | a client joining before any update gets five empty strings and then `Waiting` |
| PlayerState.ArtistExample | panpigo.go:129-134 | `current\tartist=Radiohead` stores that whole line under `artist` and emits it |
| PlayerState.StationExample | panpigo.go:136-140 | `station\tstation7=My Station` stores that whole line under `"7"` and emits nothing |
| Commands.Encode | panpigo.go:153-159 | encoding panics exactly for `station`/`command` without a tab, and writes nothing exactly for other tags |
| Commands.EncodeMessage | panpigo.go:155-158 | `station\t<id>` writes `s<id>` and a newline, `command\t<text>` writes `<text>` unchanged, and text after a second tab is dropped |
| Commands.EncodeOtherTag | panpigo.go:154-159 | any other tag writes nothing |
| Commands.EncodeMissingField | panpigo.go:155-158 | `station` or `command` without a tab panics |
| Commands.SelectStationExample | panpigo.go:155-156 | `station\t7` writes `s7` and a newline |
| Commands.Feed | panpigo.go:150-160 | the loop stops only on a panic, and that panic is at index 1 of a one-field split |
| Commands.FeedCompletes | panpigo.go:150-160 | the loop handles every message exactly when no message panics |
| Commands.FeedCommands | panpigo.go:150-160 | commands with tab-free payloads reach stdin whole, in order, each as its wire text |
| Commands.GivePianobarInput | panpigo.go:148-161 | the loop writes exactly `Feed`'s text and stops with `Feed`'s panic |

## Left out

- `RootHandler`, the HTML template, `init`'s argument handling and route registration (panpigo.go:41-49, 108-114): these serve HTTP and hold no logic.
- `main` (panpigo.go:175-202): starting the pianobar process and connecting its pipes is I/O.
- `SockServer` and `ClientConn` (panpigo.go:52-91): the websocket handshake, receive loop and close are transport code. The messages that loop forwards are the input of `GivePianobarInput`.
- `notifyWebsocketClients` and the `ActiveClients` registry (panpigo.go:26, 74, 85, 163-173): the fan-out runs concurrently over an unsynchronised map. The model is sequential and has no clients. The lines `ProcessOutput` returns are what would be sent on `piano_info`.
- Data races: `updateNewClient` reads the maps that `processPianobarOutput` writes, from another goroutine and without locks. `Snapshot` reads one consistent state.
- Channels, reading and writing: `piano_info` and `piano_ctrl`, `bufio.ReadLine`, and the `fmt.Fprintf` writes to stdin are replaced by sequences of lines and returned text. The model also leaves out these read behaviours:
  - a read error other than end of stream, which the loop treats as an empty line;
  - a line longer than the reader's buffer, which arrives in pieces.
- A panic ends the whole program (panpigo.go:130, 132, 156, 158), not only the loop that raised it. So a `current` line for a song field without `=`, a `current` or `station` line without a tab, or a client message `station` or `command` without a tab (forwarded unchecked at panpigo.go:89) stops the server. The model returns the panic from `ProcessOutput` and `GivePianobarInput` separately and leaves the state usable; it does not model the process ending or the other goroutines stopping.
- Text encoding: Go strings are byte sequences, while the model's strings are sequences of characters. Every separator and pattern the core uses (tab, `=`, `station`) is ASCII, so splitting and deleting break the text at the same places either way; multi-byte characters and invalid UTF-8 are not modelled separately.
- Logging (`log.Print`, `fmt.Println`) has no effect on state and is left out.
- The commented-out live push of station lines (panpigo.go:142-143) is not active code.
- `Message.Send` is reduced to success or failure: the set of failing send positions is a parameter of `Snapshot`.
