/**
 * The background listener (`KataGTPBot.Listener`): it hands every non-empty
 * line of engine output to the handler, in order, and on an empty read (the
 * engine's output closed) calls the recovery handler once and stops. An
 * exception raised by the handler ends the reader thread.
 */
module Reader {
  import opened Wrappers
  import opened Text
  import opened Protocol

  /** What the bot does to the engine: write one command line, or kill and relaunch it. */
  datatype Event = Sent(command: string) | Restarted

  /** How a finite stretch of engine output left the reader. */
  datatype ListenEnd =
    | Drained                           // every line was handled; the reader waits for more
    | StreamClosed                      // an empty read: recovery ran and the reader stopped
    | ReaderCrashed(error: HandlerError) // the handler raised and the reader thread died

  datatype Listened = Listened(cells: Cells, events: seq<Event>, end: ListenEnd)

  function SentAll(cmds: seq<string>): (es: seq<Event>)
    ensures |es| == |cmds| && forall i :: 0 <= i < |cmds| ==> es[i] == Sent(cmds[i])
  {
    seq(|cmds|, i requires 0 <= i < |cmds| => Sent(cmds[i]))
  }

  lemma SentAllOfHandled()
    ensures SentAll([]) == [] && SentAll(["stop"]) == [Sent("stop")]
  {
    assert SentAll(["stop"])[0] == Sent("stop");
  }

  /** The reader loop over the lines `readline()` returns, from the cells it starts with. */
  function Run(c: Cells, lines: seq<string>): Listened
    decreases |lines|
  {
    if lines == [] then Listened(c, [], Drained)
    else if lines[0] == "" then Listened(c, [Restarted], StreamClosed)
    else
      match Handle(c, lines[0])
      case Failure(e) => Listened(c, [], ReaderCrashed(e))
      case Success(h) =>
        var rest := Run(h.cells, lines[1..]);
        Listened(rest.cells, SentAll(h.sent) + rest.events, rest.end)
  }

  /**
   * The reader only ever writes `stop`, and a restart happens exactly when it
   * stops on an empty read, as its last act.
   */
  lemma {:induction false} RunEvents(c: Cells, lines: seq<string>)
    ensures var r := Run(c, lines);
      (forall k :: 0 <= k < |r.events| ==>
        r.events[k] == Sent("stop") || (k == |r.events| - 1 && r.events[k] == Restarted)) &&
      (r.end.StreamClosed? <==> r.events != [] && r.events[|r.events| - 1] == Restarted)
    decreases |lines|
  {
    if lines != [] && lines[0] != "" && Handle(c, lines[0]).Success? {
      var h := Handle(c, lines[0]).value;
      HandleInvariants(c, lines[0]);
      RunEvents(h.cells, lines[1..]);
      SentAllOfHandled();
    }
  }

  /** Nothing the reader does lowers the ready flag: once raised it stays raised until a request consumes it. */
  lemma {:induction false} RunKeepsReady(c: Cells, lines: seq<string>)
    requires c.ready
    ensures Run(c, lines).cells.ready
    decreases |lines|
  {
    if lines != [] && lines[0] != "" && Handle(c, lines[0]).Success? {
      HandleInvariants(c, lines[0]);
      RunKeepsReady(Handle(c, lines[0]).value.cells, lines[1..]);
    }
  }

  /** A known win probability is never replaced: later `CHAT:` lines fall through. */
  lemma {:induction false} RunKeepsKnownWinProb(c: Cells, lines: seq<string>)
    requires c.winProb.Known?
    ensures Run(c, lines).cells.winProb == c.winProb
    decreases |lines|
  {
    if lines != [] && lines[0] != "" && Handle(c, lines[0]).Success? {
      HandleInvariants(c, lines[0]);
      RunKeepsKnownWinProb(Handle(c, lines[0]).value.cells, lines[1..]);
    }
  }

  /**
   * Starting from an unknown win probability, a known one afterwards was read
   * from one of these lines: a `CHAT:` line whose win-rate clause holds it.
   */
  lemma {:induction false} RunWinProbFromChat(c: Cells, lines: seq<string>)
    requires c.winProb.Unknown?
    ensures var w := Run(c, lines).cells.winProb;
      w.Known? ==> exists i :: 0 <= i < |lines| && Contains(lines[i], "CHAT:") && Winrate(lines[i]) == Some(w.percent)
    decreases |lines|
  {
    if lines != [] && lines[0] != "" && Handle(c, lines[0]).Success? {
      var c' := Handle(c, lines[0]).value.cells;
      var w := Run(c, lines).cells.winProb;
      if c'.winProb.Known? {
        RunKeepsKnownWinProb(c', lines[1..]);
        assert Contains(lines[0], "CHAT:") && Winrate(lines[0]) == Some(w.percent);
      } else {
        RunWinProbFromChat(c', lines[1..]);
        if w.Known? {
          var i :| 0 <= i < |lines[1..]| && Contains(lines[1..][i], "CHAT:") && Winrate(lines[1..][i]) == Some(w.percent);
          assert lines[i + 1] == lines[1..][i];
        }
      }
    }
  }

  /** The reader keeps the slot well formed. */
  lemma {:induction false} RunKeepsSlotWellFormed(c: Cells, lines: seq<string>)
    requires SlotWellFormed(c.slot)
    ensures SlotWellFormed(Run(c, lines).cells.slot)
    decreases |lines|
  {
    if lines != [] && lines[0] != "" && Handle(c, lines[0]).Success? {
      HandleKeepsSlotWellFormed(c, lines[0]);
      RunKeepsSlotWellFormed(Handle(c, lines[0]).value.cells, lines[1..]);
    }
  }

  // One step of the reader, stated once so that the loop that implements it need not unfold `Run`.

  /** What one read does: the cells and events after it, and whether the reader stops there. */
  datatype Stepped = Stepped(cells: Cells, events: seq<Event>, stop: Option<ListenEnd>)

  function Step(c: Cells, line: string): Stepped {
    if line == "" then Stepped(c, [Restarted], Some(StreamClosed))
    else
      match Handle(c, line)
      case Failure(e) => Stepped(c, [], Some(ReaderCrashed(e)))
      case Success(h) => Stepped(h.cells, SentAll(h.sent), None)
  }

  /** `Run` is its first step followed, unless that step stops the reader, by the run over the remaining lines. */
  lemma RunFirstStep(c: Cells, lines: seq<string>)
    requires lines != []
    ensures var st := Step(c, lines[0]); var rest := Run(st.cells, lines[1..]);
      Run(c, lines) ==
        if st.stop.Some? then Listened(st.cells, st.events, st.stop.value)
        else Listened(rest.cells, st.events + rest.events, rest.end)
  {
  }
}
