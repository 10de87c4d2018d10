/**
 * `KataGTPBot`: the bot object together with the module-level cells it
 * shares with its reader thread (`g_response`, `g_response_event`,
 * `g_win_prob`) and the command stream written to KataGo's stdin.
 */
module Session {
  import opened Wrappers
  import opened Text
  import opened Protocol
  import opened Reader

  // ---------------------------------------------------------------- history replay

  /** Colour of history entry `i`: black moves first, colours alternate. */
  function ColorAt(i: nat): string {
    if i % 2 == 0 then "b" else "w"
  }

  /** Entry `i` is sent to KataGo unless it is a pass among the first 21 entries. */
  predicate Replayed(moves: seq<string>, i: nat)
    requires i < |moves|
  {
    moves[i] != "pass" || i > 20
  }

  function PlayCommand(color: string, move: string): string {
    "play " + color + " " + move
  }

  /** The `play` commands that replay `moves`, entry by entry. */
  function ReplayCommands(moves: seq<string>): seq<string>
    decreases |moves|
  {
    if moves == [] then []
    else
      var i := |moves| - 1;
      ReplayCommands(moves[..i]) + (if Replayed(moves, i) then [PlayCommand(ColorAt(i), moves[i])] else [])
  }

  /** The history indices that are replayed, in history order. */
  function ReplayedIndices(moves: seq<string>): (ks: seq<nat>)
    ensures forall k :: 0 <= k < |ks| ==> ks[k] < |moves| && Replayed(moves, ks[k])
    ensures forall k, l :: 0 <= k < l < |ks| ==> ks[k] < ks[l]
    ensures forall i :: 0 <= i < |moves| && Replayed(moves, i) ==> i in ks
    decreases |moves|
  {
    if moves == [] then []
    else
      var i := |moves| - 1;
      var ks := ReplayedIndices(moves[..i]);
      assert forall k :: 0 <= k < |ks| ==> moves[..i][ks[k]] == moves[ks[k]];
      ks + (if Replayed(moves, i) then [i] else [])
  }

  /**
   * The replay is exactly one `play` per replayed index, in history order,
   * each with the colour of its own index, whether or not earlier entries
   * were sent.
   */
  lemma {:induction false} ReplayIndexed(moves: seq<string>)
    ensures var ks := ReplayedIndices(moves); var cmds := ReplayCommands(moves);
      |cmds| == |ks| && forall k :: 0 <= k < |ks| ==> cmds[k] == PlayCommand(ColorAt(ks[k]), moves[ks[k]])
    decreases |moves|
  {
    if moves != [] {
      var i := |moves| - 1;
      ReplayIndexed(moves[..i]);
      var ks := ReplayedIndices(moves[..i]);
      assert forall k :: 0 <= k < |ks| ==> moves[..i][ks[k]] == moves[ks[k]];
    }
  }

  /** Number of times `x` occurs in `xs`. */
  function Occurrences(xs: seq<string>, x: string): nat
    decreases |xs|
  {
    if xs == [] then 0
    else Occurrences(xs[..|xs| - 1], x) + (if xs[|xs| - 1] == x then 1 else 0)
  }

  function Min(a: nat, b: nat): nat {
    if a <= b then a else b
  }

  /** Only the passes among the first 21 entries are dropped; every other entry is sent. */
  lemma {:induction false} ReplayCount(moves: seq<string>)
    ensures |ReplayCommands(moves)| == |moves| - Occurrences(moves[..Min(|moves|, 21)], "pass")
    decreases |moves|
  {
    if moves != [] {
      var i := |moves| - 1;
      var prefix := moves[..i];
      ReplayCount(prefix);
      if |moves| <= 21 {
        assert moves[..Min(|moves|, 21)] == moves;
        assert prefix[..Min(|prefix|, 21)] == prefix;
      } else {
        assert moves[..Min(|moves|, 21)] == prefix[..Min(|prefix|, 21)];
      }
    }
  }

  /** The scenario of a two-entry history: the early pass is not replayed. */
  lemma ReplayTwoEntries()
    ensures ReplayCommands(["A1", "pass"]) == ["play b A1"]
  {
    var h := ["A1", "pass"];
    assert h[..1] == ["A1"];
    assert ["A1"][..0] == [];
    assert !Replayed(h, 1);
    assert ReplayCommands(["A1"]) == [PlayCommand(ColorAt(0), "A1")];
    assert PlayCommand("b", "A1") == "play b A1";
  }

  /** `config.get('komi', 7.5)` formatted by `'%f'`; configuration values are kept as that text. */
  function KomiText(config: map<string, string>): string {
    if "komi" in config then config["komi"] else "7.500000"
  }

  /** The commands `select_move` writes before it waits. */
  function MoveRequest(moves: seq<string>, config: map<string, string>): seq<Event> {
    [Sent("komi " + KomiText(config)), Sent("clear_board")] +
    SentAll(ReplayCommands(moves)) +
    [Sent("genmove " + ColorAt(|moves|))]
  }

  lemma {:induction false} ReplayPlays(moves: seq<string>)
    ensures forall k :: 0 <= k < |ReplayCommands(moves)| ==> StartsWith(ReplayCommands(moves)[k], "play ")
    decreases |moves|
  {
    if moves != [] {
      var i := |moves| - 1;
      ReplayPlays(moves[..i]);
      var c := PlayCommand(ColorAt(i), moves[i]);
      assert c[..5] == "play ";
    }
  }

  /**
   * Before waiting, `select_move` writes one `komi`, one `clear_board`, then
   * nothing but `play` lines, and finally one `genmove` for the side to move.
   */
  lemma MoveRequestShape(moves: seq<string>, config: map<string, string>)
    ensures var req := MoveRequest(moves, config); var n := |ReplayCommands(moves)|;
      |req| == n + 3 &&
      req[0] == Sent("komi " + KomiText(config)) && req[1] == Sent("clear_board") &&
      (forall k :: 2 <= k < n + 2 ==> req[k].Sent? && StartsWith(req[k].command, "play ")) &&
      req[n + 2] == Sent("genmove " + ColorAt(|moves|))
  {
    var cmds := ReplayCommands(moves);
    ReplayPlays(moves);
    forall k | 2 <= k < |cmds| + 2 ensures MoveRequest(moves, config)[k] == Sent(cmds[k - 2]) {
    }
  }

  /** The exceptions `score` raises while reading the slot. */
  datatype ScoreError =
    | ReplyNotAnalysis   // the slot holds a move, which has no `split`: AttributeError
    | OwnershipMissing   // the analysis line has no `ownership`: IndexError

  lemma SentAllAppend(a: seq<string>, b: seq<string>)
    ensures SentAll(a + b) == SentAll(a) + SentAll(b)
  {
  }

  /** Regrouping the event log, proved apart from the reader loop, where the handler's definitions would crowd it. */
  lemma EventsAssoc(a: seq<Event>, b: seq<Event>, c: seq<Event>)
    ensures a + (b + c) == (a + b) + c
  {
  }

  // ---------------------------------------------------------------- the bot

  class KataGtpBot {
    /** Everything written to KataGo's stdin, one command per line, and each restart of the process. */
    var log: seq<Event>
    /** `g_response`: the pending response. */
    var slot: Option<Reply>
    /** `g_response_event`: set when a response is ready. */
    var ready: bool
    /** `g_win_prob`. */
    var winProb: WinProb
    var lastMoveColor: string

    function Shared(): Cells
      reads this
    {
      Cells(slot, ready, winProb)
    }

    /** A freshly launched bot: nothing sent yet, empty slot, flag clear, win probability unknown. */
    constructor ()
      ensures log == [] && Shared() == Cells(None, false, Unknown) && lastMoveColor == ""
    {
      log := [];
      slot := None;
      ready := false;
      winProb := Unknown;
      lastMoveColor := "";
    }

    /** `_katagoCmd`: write one command line to KataGo. */
    method Send(cmd: string)
      modifies this`log
      ensures log == old(log) + [Sent(cmd)]
    {
      log := log + [Sent(cmd)];
    }

    /** `set_komi`. */
    method SetKomi(komi: string)
      modifies this`log
      ensures log == old(log) + [Sent("komi " + komi)]
    {
      Send("komi " + komi);
    }

    /** `_error_handler`: kill KataGo and launch a fresh one; the shared cells are left as they are. */
    method Recover()
      modifies this`log
      ensures log == old(log) + [Restarted]
    {
      log := log + [Restarted];
    }

    /** `_result_handler`: one line of engine output, applied to the shared cells. */
    method HandleLine(line: string) returns (outcome: Outcome<HandlerError>)
      modifies this`log, this`slot, this`ready, this`winProb
      ensures var r := Handle(old(Shared()), line);
        (r.Failure? ==> outcome == Raised(r.error) && Shared() == old(Shared()) && log == old(log)) &&
        (r.Success? ==> outcome == Completed && Shared() == r.value.cells && log == old(log) + SentAll(r.value.sent))
    {
      ghost var c := Shared();
      if winProb.Unknown? && Contains(line, "CHAT:") {
        outcome := RecordWinrate(line);
      } else if Contains(line, "@@") {
        // KataGo's own log output: nothing to do
        HandleLogLine(c, line);
        SentAllOfHandled();
        outcome := Completed;
      } else if StartsWith(line, "=") {
        TakeReply(line);
        outcome := Completed;
      } else if StartsWith(line, "info ") {
        TakeAnalysis(line);
        outcome := Completed;
      } else {
        HandleOtherLine(c, line);
        SentAllOfHandled();
        outcome := Completed;
      }
    }

    /** The win-rate branch: `Winrate <number>% ` is read from a `CHAT:` line, or the handler raises. */
    method RecordWinrate(line: string) returns (outcome: Outcome<HandlerError>)
      requires winProb.Unknown? && Contains(line, "CHAT:")
      modifies this`winProb
      ensures var r := Handle(old(Shared()), line);
        (r.Failure? ==> outcome == Raised(r.error) && Shared() == old(Shared()) && log == old(log)) &&
        (r.Success? ==> outcome == Completed && Shared() == r.value.cells && log == old(log) + SentAll(r.value.sent))
    {
      HandleChatLine(Shared(), line);
      SentAllOfHandled();
      var pct := Winrate(line);
      if pct.None? {
        return Raised(WinrateMissing);
      }
      if !FloatParses(pct.value) {
        return Raised(WinrateNotNumber);
      }
      winProb := Known(pct.value);
      outcome := Completed;
    }

    /** The GTP reply branch: a non-empty payload replaces the slot; a decoded move raises the flag. */
    method TakeReply(line: string)
      requires PastChat(Shared(), line) && !Contains(line, "@@") && StartsWith(line, "=")
      modifies this`slot, this`ready
      ensures var r := Handle(old(Shared()), line);
        r.Success? && Shared() == r.value.cells && log == old(log) + SentAll(r.value.sent)
    {
      HandleReplyLine(Shared(), line);
      SentAllOfHandled();
      var resp := Strip(SecondField(line, "=").value);
      if resp != [] {
        var m := Resp2Move(resp);
        slot := if m.Some? then Some(MoveReply(m.value)) else None;
        if m.Some? {
          ready := true;
        }
      }
    }

    /** The analysis branch: stop the analysis, hand over the raw line, raise the flag. */
    method TakeAnalysis(line: string)
      requires PastChat(Shared(), line) && !Contains(line, "@@") && StartsWith(line, "info ")
      modifies this`log, this`slot, this`ready
      ensures var r := Handle(old(Shared()), line);
        r.Success? && Shared() == r.value.cells && log == old(log) + SentAll(r.value.sent)
    {
      HandleAnalysisLine(Shared(), line);
      SentAllOfHandled();
      Send("stop");
      slot := Some(AnalysisReply(line));
      ready := true;
    }

    /** The reader loop of `Listener`, over the lines `readline()` returns. */
    method Listen(lines: seq<string>) returns (end: ListenEnd)
      modifies this`log, this`slot, this`ready, this`winProb
      ensures var r := Run(old(Shared()), lines);
        Shared() == r.cells && log == old(log) + r.events && end == r.end
    {
      var i := 0;
      while i < |lines|
        invariant 0 <= i <= |lines|
        invariant var r := Run(Shared(), lines[i..]); var r0 := Run(old(Shared()), lines);
          r0.cells == r.cells && r0.end == r.end && old(log) + r0.events == log + r.events
      {
        ghost var c := Shared();
        ghost var before := log;
        RunFirstStep(c, lines[i..]);
        var stopped := ReadLine(lines[i]);
        assert lines[i..][1..] == lines[i + 1..];
        if stopped.Some? {
          return stopped.value;
        }
        EventsAssoc(before, Step(c, lines[i]).events, Run(Shared(), lines[i + 1..]).events);
        i := i + 1;
      }
      end := Drained;
    }

    /**
     * One turn of the reader loop: a non-empty line goes to the handler; an
     * empty read starts recovery and ends the loop, and so does an exception
     * from the handler.
     */
    method ReadLine(line: string) returns (stopped: Option<ListenEnd>)
      modifies this`log, this`slot, this`ready, this`winProb
      ensures var st := Step(old(Shared()), line);
        Shared() == st.cells && log == old(log) + st.events && stopped == st.stop
    {
      if line == "" {
        // probably KataGo died
        Recover();
        return Some(StreamClosed);
      }
      var outcome := HandleLine(line);
      if outcome.Raised? {
        return Some(ReaderCrashed(outcome.error));
      }
      stopped := None;
    }

    /** The replay loop of `select_move`: one `play` per replayed entry, colours alternating from black. */
    method ReplayHistory(moves: seq<string>) returns (color: string)
      modifies this`log
      ensures color == ColorAt(|moves|)
      ensures log == old(log) + SentAll(ReplayCommands(moves))
    {
      color := "b";
      var idx := 0;
      while idx < |moves|
        invariant 0 <= idx <= |moves|
        invariant color == ColorAt(idx)
        invariant log == old(log) + SentAll(ReplayCommands(moves[..idx]))
      {
        assert moves[..idx + 1][..idx] == moves[..idx];
        var move := moves[idx];
        if move != "pass" || idx > 20 {
          SentAllAppend(ReplayCommands(moves[..idx]), [PlayCommand(color, move)]);
          Send(PlayCommand(color, move));
        }
        color := if color == "w" then "b" else "w";
        idx := idx + 1;
      }
      assert moves[..idx] == moves;
    }

    /**
     * `select_move`: reset the win probability, send komi, clear the board,
     * replay the history and ask for a move; `arrivals` are the lines the
     * reader handles while the request waits. The wait succeeds when the
     * ready flag is up once they are handled, and times out otherwise.
     */
    method SelectMove(moves: seq<string>, config: map<string, string>, arrivals: seq<string>)
      returns (res: Option<Reply>)
      modifies this
      ensures lastMoveColor == ColorAt(|moves|)
      ensures var r := Run(Cells(old(slot), old(ready), Unknown), arrivals);
        if r.cells.ready then
          res == r.cells.slot && slot == None && ready == r.cells.slot.None? &&
          winProb == r.cells.winProb && log == old(log) + MoveRequest(moves, config) + r.events
        else
          res == None && Shared() == r.cells &&
          log == old(log) + MoveRequest(moves, config) + r.events + [Restarted]
      ensures Diagnostics().Known? ==>
        exists i :: 0 <= i < |arrivals| && Contains(arrivals[i], "CHAT:") && Winrate(arrivals[i]) == Some(Diagnostics().percent)
    {
      winProb := Unknown;
      SetKomi(KomiText(config));
      Send("clear_board");
      var color := ReplayHistory(moves);
      lastMoveColor := color;
      Send("genmove " + color);
      assert log == old(log) + MoveRequest(moves, config);
      RunWinProbFromChat(Shared(), arrivals);
      var _ := Listen(arrivals);
      res := AwaitMove();
    }

    /**
     * The end of `select_move`: a timed-out wait restarts KataGo and yields
     * nothing; otherwise the slot is taken and emptied, and the flag is
     * cleared only when the slot held something.
     */
    method AwaitMove() returns (res: Option<Reply>)
      modifies this`log, this`slot, this`ready
      ensures if old(ready) then
          res == old(slot) && slot == None && ready == old(slot).None? && log == old(log)
        else
          res == None && slot == old(slot) && !ready && log == old(log) + [Restarted]
    {
      if !ready {
        // the wait timed out: KataGo is taken for dead
        Recover();
        return None;
      }
      res := None;
      if slot.Some? {
        res := slot;
        ready := false;
      }
      slot := None;
    }

    /**
     * `score`: ask for an ownership analysis and read it from the next
     * analysis line; `arrivals` are the lines the reader handles meanwhile.
     */
    method Score(arrivals: seq<string>) returns (res: Result<Option<seq<string>>, ScoreError>)
      modifies this
      ensures lastMoveColor == old(lastMoveColor)
      ensures var r := Run(old(Shared()), arrivals);
        var request := old(log) + [Sent("kata-analyze 100 ownership true")] + r.events;
        if !r.cells.ready then
          res == Success(None) && Shared() == r.cells && log == request + [Restarted]
        else
          log == request &&
          match r.cells.slot
          case None => res == Success(None) && Shared() == r.cells
          case Some(MoveReply(_)) => res == Failure(ReplyNotAnalysis) && Shared() == r.cells
          case Some(AnalysisReply(line)) =>
            match Ownership(line)
            case None => res == Failure(OwnershipMissing) && Shared() == r.cells
            case Some(figures) => res == Success(Some(figures)) && Shared() == Cells(None, false, r.cells.winProb)
    {
      Send("kata-analyze 100 ownership true");
      var _ := Listen(arrivals);
      if !ready {
        // the wait timed out: KataGo is taken for dead
        Recover();
        return Success(None);
      }
      res := Success(None);
      if slot.Some? {
        match slot.value
        case MoveReply(_) =>
          return Failure(ReplyNotAnalysis);
        case AnalysisReply(line) =>
          var figures := Ownership(line);
          if figures.None? {
            return Failure(OwnershipMissing);
          }
          res := Success(figures);
          ready := false;
      }
      slot := None;
    }

    /** `diagnostics`: the win probability as last recorded. */
    function Diagnostics(): (w: WinProb)
      reads this
      ensures w == winProb
    {
      winProb
    }
  }
}
