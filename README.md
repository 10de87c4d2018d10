# KataGo GTP bot — a Dafny model

This project models the protocol side of `KataGTPBot`, a wrapper that runs a
KataGo engine as a subprocess and talks to it over GTP (the Go Text
Protocol). The wrapper has two threads:

- **Request side.** A request thread writes commands to the engine:
  `komi`, `clear_board`, one `play` per replayed history entry, then
  `genmove`, or `kata-analyze` for a score request. It then waits up to 20
  seconds for the response-ready flag.
- **Reader thread.** A reader thread reads the engine's output line by
  line and hands each line to `_result_handler`. The handler updates three
  module-level cells:
  - `g_response`, the pending response;
  - `g_response_event`, the ready flag;
  - `g_win_prob`, which is -1 while unknown.

Modules:

- `wrappers.dfy`: `Option`, `Result` and `Outcome`. `Outcome` is a
  statement that either completes or raises.
- `text.dfy`: the Python string operations the code relies on. They are
  `str.strip()` and `str.split()`, both using the full `str.isspace()`
  whitespace set; `s.split(sep)[1]`, where a missing separator is the
  `IndexError` and is modelled as `None`; and `in` and `startswith`.
- `protocol.dfy`, the pure functions:
  - `Resp2Move`, which is `_resp2Move`;
  - `Winrate`, the `Winrate\s+[0-9.]+%\s+` regular expression on a `CHAT:`
    line, and `FloatParses`, whether `float()` accepts the number it
    captured;
  - `Handle`, the handler as a function from the three cells and one line
    to new cells plus the commands it writes, or an exception;
  - `Ownership`, the `split('ownership')[1].split()` of `score`;
  - lemmas for each branch of the handler and for the invariants it keeps.
- `reader.dfy`: `Run`, the `Listener` loop as a fold of `Handle` over the
  lines `readline()` returns. An empty read means end of stream: it
  triggers one recovery and stops. The module also holds lemmas about what
  the reader can and cannot do to the cells.
- `session.dfy`: the class `KataGtpBot`.
  - **State.** It holds the three cells, the command stream written to the
    engine (`log`, a sequence of `Sent(cmd)` and `Restarted` events) and
    `last_move_color`.
  - **Methods.** `SelectMove`, `Score`, `Listen`, `HandleLine`, `SetKomi`,
    `Send` and `Recover` change this state in place. Each is proved
    against the functions above.
  - **Replay.** The history replay is specified by `ReplayCommands`, with
    its count, order and colour properties proved.

How the wait is modelled: `Event.wait(MOVE_TIMEOUT)` is replaced by an
`arrivals` parameter. It holds the lines the reader thread handles while the
request waits. The wait succeeds exactly when the ready flag is up once those
lines are handled. Otherwise it times out: the engine is restarted (a
`Restarted` event) and the request returns `None`.

Behaviours of the code that the model keeps as written, though a reader of
the comments might expect otherwise:

- **Passes in the replay.** A history entry `pass` is left out only at
  indices 0 to 20. Later passes are sent.
- **CHAT line without a win rate.** While the win probability is unknown, a
  `CHAT:` line with no `Winrate <number>% ` clause makes `findall(...)[0]`
  raise. An unparsable number makes `float()` raise. Either way the
  exception ends the reader thread (`ReaderCrashed`). The line is not
  ignored.
- **Ready flag never cleared by the handler.** Once raised, the ready flag
  stays raised until a request consumes it (`RunKeepsReady`). An `info`
  line that arrives after `score` has consumed its line therefore raises
  the flag again, and the next `select_move` returns that stale line
  without waiting.
- **What `score` raises.**
  - When the slot holds a move, `score` raises `AttributeError` (a move
    has no `split`).
  - When the slot holds an analysis line without `ownership`, `score`
    raises `IndexError`.
  - Both are modelled as `Failure`. The slot and the flag are left as they
    were.

## Model

| member | source | states |
|---|---|---|
| Text.IsSpace | katago_gtp_bot.py:98 | Python's `str.isspace()` character class, the one behind `strip()`, `split()` and the regex `\s`: the ASCII tab through carriage return, the space, the file/group/record/unit separators and the Unicode space characters |
| Text.StartsWith | katago_gtp_bot.py:104 | `s.startswith(t)`: `t` occurs at position 0 of `s`, so every text starts with the empty string |
| Text.Contains | katago_gtp_bot.py:96 | Python's `t in s`: some position where `t` occurs, so the empty string is in every text |
| Text.Strip | katago_gtp_bot.py:105 | `str.strip()`: the result begins and ends with non-whitespace and is the input with a whitespace prefix and a whitespace suffix removed; it is empty exactly when the input is all whitespace |
| Text.StripSurrounded | katago_gtp_bot.py:105 | stripping text that has whitespace only around a non-blank core gives back that core |
| Text.IndexOf | katago_gtp_bot.py:105 | finds a separator exactly when the text contains it, at its first occurrence |
| Text.SecondField | katago_gtp_bot.py:105 | `s.split(sep)[1]` is `None` exactly when `sep` does not occur (the `IndexError`); otherwise it is the text from the end of the first `sep` up to the next `sep` or the end, and holds no `sep` |
| Text.SecondFieldToEnd | katago_gtp_bot.py:217 | when `sep` occurs only once, the second field is everything after it |
| Text.SplitWs | katago_gtp_bot.py:218 | `str.split()` yields only non-empty tokens free of whitespace; which tokens, in which order, is fixed by `SplitOfSpaces`, `SplitSkipsSpaces` and `SplitLeadingWord` |
| Text.SplitOfSpaces | katago_gtp_bot.py:218 | all-whitespace text splits into no tokens |
| Text.SplitSkipsSpaces | katago_gtp_bot.py:218 | leading whitespace does not change the split |
| Text.SplitLeadingWord | katago_gtp_bot.py:218 | after any leading whitespace, the maximal run of non-whitespace is the first token and the split continues after it; with `SplitOfSpaces` this determines the split of every text |
| Text.SplitJoin | katago_gtp_bot.py:218 | `str.split()` gives back the words of a text that separates them by any non-empty whitespace, with any whitespace before the first and after the last |
| Protocol.Resp2Move | katago_gtp_bot.py:130-139 | any reply containing `pass` decodes to pass, which wins over `resign`; otherwise `resign` decodes to resign; otherwise a reply whose stripped length is 2 or 3 is a play of that text; anything else is `None` |
| Protocol.StripUnchanged | katago_gtp_bot.py:136 | a coordinate with no surrounding whitespace is left unchanged by `strip()` |
| Protocol.DecodePass | katago_gtp_bot.py:132-133 | the reply `pass` decodes to a pass |
| Protocol.DecodeResign | katago_gtp_bot.py:134-135 | the reply `resign` decodes to a resign, since it does not contain `pass` |
| Protocol.DecodeMoveText | katago_gtp_bot.py:130-139 | every move KataGo can print (pass, resign or a GTP vertex) decodes back to itself |
| Protocol.WinrateAt | katago_gtp_bot.py:98 | a match of `Winrate\s+[0-9.]+%\s+` at a position yields a non-empty run of digits and dots that is preceded by `Winrate` and whitespace and followed by `%` and whitespace |
| Protocol.WinrateAtReadsBack | katago_gtp_bot.py:98-100 | a clause written as `Winrate`, whitespace, a number, `%` and whitespace is matched, and the number read back is that number |
| Protocol.FirstWinrate | katago_gtp_bot.py:98 | `findall(...)[0]` is the leftmost match: no position before it matches, and `None` means no position matches |
| Protocol.Winrate | katago_gtp_bot.py:98-100 | the number is absent exactly when the pattern matches nowhere; otherwise it is the number of the leftmost match |
| Protocol.FloatParses | katago_gtp_bot.py:101 | `float()` accepts a run of digits and dots exactly when it holds a digit and at most one dot |
| Protocol.Handle | katago_gtp_bot.py:90-114 | the `if`/`elif` chain of `_result_handler` as a function from the three cells and a line to the new cells and the commands written, or the exception raised; its properties are the lemmas below |
| Protocol.HandleInvariants | katago_gtp_bot.py:90-114 | no line lowers the ready flag or replaces a known win probability; a line writes either nothing or one `stop`; the handler raises exactly on a `CHAT:` line taken while the probability is unknown whose win-rate clause is missing or does not parse as a float |
| Protocol.HandleChatLine | katago_gtp_bot.py:96-101 | while the probability is unknown, a `CHAT:` line either raises (`IndexError` for a missing clause, `ValueError` for an unparsable number) or records the number and changes nothing else |
| Protocol.HandleLogLine | katago_gtp_bot.py:102-103 | a `@@` line not taken by the win-rate branch changes no cell and sends nothing |
| Protocol.HandleReplyLine | katago_gtp_bot.py:104-110 | a line starting with `=` whose payload strips to empty changes nothing; otherwise the slot is overwritten with the decoded move, even when that is `None`, and the flag is raised only by a move |
| Protocol.GenmoveReplyNotChatOrLog | katago_gtp_bot.py:96-103 | a `genmove` reply holds no `:` or `@`, so neither the win-rate branch nor the log branch takes it, whatever the win probability |
| Protocol.GenmovePayload | katago_gtp_bot.py:104-105 | the payload extracted from `= <move>` followed by a line end is exactly the move's text |
| Protocol.HandleGenmoveReply | katago_gtp_bot.py:96-110 | from any cells, KataGo's reply to `genmove` puts exactly the generated move in the slot and raises the flag |
| Protocol.HandleAnalysisLine | katago_gtp_bot.py:111-114 | every `info ` line not taken earlier sends one `stop`, stores the raw line in the slot and raises the flag |
| Protocol.HandleOtherLine | katago_gtp_bot.py:96-114 | a line matching no branch changes nothing and sends nothing |
| Protocol.HandleKeepsSlotWellFormed | katago_gtp_bot.py:104-114 | the slot only ever holds a move whose vertex text decodes back to it, or an `info ` line with no `@@` |
| Protocol.Ownership | katago_gtp_bot.py:217-218 | the figures exist exactly when the line contains `ownership` (else `IndexError`), and each is a whitespace-free token; for a line with one `ownership` they are the split of everything after it (`OwnershipIsSplitOfRest`), otherwise the split of the text up to the next `ownership` (`SecondField`) |
| Protocol.FirstOwnership | katago_gtp_bot.py:217 | `ownership` is found at the end of any prefix that does not contain it, since no proper prefix of the word is also a suffix of it |
| Protocol.OwnershipIsSplitOfRest | katago_gtp_bot.py:217-218 | for any line with a single `ownership`, the figures are the whitespace-split of everything after it |
| Protocol.OwnershipReadsBack | katago_gtp_bot.py:217-218 | an analysis line ending in `ownership` followed by figures separated by any whitespace yields exactly those figures |
| Reader.Run | katago_gtp_bot.py:53-59 | the reader loop over a finite stretch of output: each non-empty line goes to the handler in order; the first empty read records one restart and stops; an exception stops the reader |
| Reader.Step | katago_gtp_bot.py:54-59 | one turn of that loop: an empty read restarts and stops, a raising line stops, any other line is handled |
| Reader.RunEvents | katago_gtp_bot.py:53-59 | the reader writes only `stop` commands; a restart is its last act, and it happens exactly when the reader stops on an empty read |
| Reader.RunKeepsReady | katago_gtp_bot.py:53-59 | once raised, the ready flag stays raised whatever the reader handles |
| Reader.RunKeepsKnownWinProb | katago_gtp_bot.py:96 | once known, the win probability is not replaced by later `CHAT:` lines |
| Reader.RunWinProbFromChat | katago_gtp_bot.py:96-101 | starting from unknown, a known win probability afterwards is the win rate of a `CHAT:` line among those lines |
| Reader.RunKeepsSlotWellFormed | katago_gtp_bot.py:53-59 | the reader keeps the slot well formed over any sequence of lines |
| Reader.RunFirstStep | katago_gtp_bot.py:53-59 | the loop is its first read followed, unless that read stops it, by the loop over the remaining lines |
| Session.ColorAt | katago_gtp_bot.py:170-174 | the colour of history entry `i`: `b` for even `i` and `w` for odd, since the loop flips the colour on every entry, sent or not |
| Session.ReplayCommands | katago_gtp_bot.py:170-174 | the `play <colour> <move>` lines the replay loop writes, in history order, for the entries `move != 'pass' or idx > 20` admits |
| Session.KomiText | katago_gtp_bot.py:161-162 | `config.get('komi', 7.5)`, kept as the text `'%f'` gives it, default `7.500000` |
| Session.MoveRequest | katago_gtp_bot.py:161-180 | the commands `select_move` writes before it waits: `komi`, `clear_board`, the replay, `genmove` |
| Session.Replayed | katago_gtp_bot.py:172 | history entry `i` is written to the engine exactly when it is not `pass` or its index is above 20 |
| Session.PlayCommand | katago_gtp_bot.py:173 | the `play <colour> <move>` command text for one history entry |
| Session.ReplayedIndices | katago_gtp_bot.py:171-172 | lists every replayed history index, each once, in increasing order |
| Session.ReplayIndexed | katago_gtp_bot.py:170-174 | the replay is one `play` per replayed index in history order, each with the colour of its own index (`b` even, `w` odd) whether or not earlier entries were sent |
| Session.ReplayCount | katago_gtp_bot.py:171-173 | the number of `play` commands is the history length minus the passes at indices 0 to 20 |
| Session.ReplayTwoEntries | katago_gtp_bot.py:172 | a history `A1`, `pass` replays only `play b A1` |
| Session.ReplayPlays | katago_gtp_bot.py:173 | every replay command is a `play` line |
| Session.MoveRequestShape | katago_gtp_bot.py:161-180 | before waiting, `select_move` writes exactly one `komi`, one `clear_board`, only `play` lines, and finally one `genmove` for the colour of the side to move |
| Session.KataGtpBot.constructor | katago_gtp_bot.py:30-73 | a new bot has sent nothing, its slot is empty, its flag is clear and its win probability unknown |
| Session.KataGtpBot.Send | katago_gtp_bot.py:143-148 | a command is appended to the stream written to the engine |
| Session.KataGtpBot.SetKomi | katago_gtp_bot.py:227-229 | writes `komi <value>` |
| Session.KataGtpBot.Recover | katago_gtp_bot.py:118-126 | a restart of the engine is recorded and the shared cells are left as they are |
| Session.KataGtpBot.HandleLine | katago_gtp_bot.py:90-114 | the in-place handler leaves exactly the cells and sent commands of `Handle`, and raises exactly when `Handle` fails, with nothing changed |
| Session.KataGtpBot.RecordWinrate | katago_gtp_bot.py:96-101 | the win-rate branch in place: record the number, or raise and change nothing |
| Session.KataGtpBot.TakeReply | katago_gtp_bot.py:104-110 | the `=` branch in place agrees with `Handle` |
| Session.KataGtpBot.TakeAnalysis | katago_gtp_bot.py:111-114 | the `info ` branch in place writes `stop` and agrees with `Handle` |
| Session.KataGtpBot.ReadLine | katago_gtp_bot.py:54-59 | one read: an empty line restarts the engine and stops the reader, a raising line stops it, any other line is handled |
| Session.KataGtpBot.Listen | katago_gtp_bot.py:48-59 | the reader loop leaves the cells, the events and the way it stopped that `Run` gives |
| Session.KataGtpBot.ReplayHistory | katago_gtp_bot.py:170-174 | the loop writes exactly `ReplayCommands(moves)` and ends with the colour of index `len(moves)` |
| Session.KataGtpBot.SelectMove | katago_gtp_bot.py:153-196 | resets the win probability, writes the move request, lets the reader handle the arrivals and sets `last_move_color` to the side to move. If the flag is then up, it returns the slot, empties it and clears the flag only if the slot held something. Otherwise it records a restart and returns `None` with the slot untouched. Afterwards a known win probability is the win rate of a `CHAT:` line among this call's arrivals |
| Session.KataGtpBot.AwaitMove | katago_gtp_bot.py:183-196 | on success the slot is returned and emptied, and the flag is cleared only when the slot held something; on timeout a restart is recorded and nothing is returned |
| Session.KataGtpBot.Score | katago_gtp_bot.py:200-224 | writes `kata-analyze 100 ownership true` and lets the reader handle the arrivals. On timeout it records a restart and returns `None`. With a move in the slot, or a line without `ownership`, it raises and changes nothing. With an empty slot it returns `None`. Otherwise it returns the ownership figures, empties the slot and clears the flag |
| Session.KataGtpBot.Diagnostics | katago_gtp_bot.py:233-235 | reports the `g_win_prob` cell; by `SelectMove`'s contract, after a move request it is unknown or the win rate of a `CHAT:` line among that request's arrivals |

## Left out

- **Processes and threads.** Launching and killing the KataGo process,
  `atexit`, the lock and the one-second sleep in `_error_handler` are OS
  work. A restart is one `Restarted` event.
- **Writes to a dead process.** `p.stdin.write` in `_katagoCmd` raising
  `BrokenPipeError` once the engine has exited (katago_gtp_bot.py:147) is
  not modelled: every `Send` appends to the log.
- **Blocking wait.** The reader thread runs concurrently and
  `Event.wait(20)` blocks. Both are replaced by the `arrivals` parameter,
  handled in full before the flag is read. Lines that race with the
  request's own reads are not modelled.
- **Restart chain after a timeout.** Read from the code, not executed: a
  timeout restart kills the current process (katago_gtp_bot.py:85, :123)
  and starts a new one with its own reader (:124). The old reader then
  reads the end of the killed process's output (:54-58) and calls the same
  recovery, which kills `self.katago_proc`, by then the process just
  started, and starts another. That process's reader does the same, so one
  timeout starts a chain of restarts that never ends, about one a second
  (:125). The model's reader works on one finite stretch of output of one
  process. It records the single restart a request makes and the one an
  empty read makes, but not the readers that later restarts start, nor a
  reader that has already crashed, so this chain is not captured.
- **Floating point.**
  - The win probability is kept as the text of its percentage.
    `0.01 * float(...)` and `diagnostics`' `float()` are not computed.
  - Komi is kept as the text that `'%f'` would produce, with the default
    written as `7.500000`.
- **Point decoding.** `point_from_coords`, the `Move` class and the board
  modules are not part of this model. A play carries the reply's
  coordinate text. An exception `point_from_coords` might raise on odd
  coordinates is not modelled.
- **Byte decoding.** `readline().decode()` is taken to succeed. Lines are
  Unicode text.
- **Unused code.** `_idx2move` depends on an `encoder` that is never
  defined. The unused `game_state`, `moves` and `config` parameters of
  `score`, the unused `game_state` of `select_move` and the unused local
  `p` in both are dropped.
- **Glue and logging.** The HTTP service in `get_bot_app.py`, the
  command-line wiring in `katago_server.py` and every `print` are not part
  of this model.
