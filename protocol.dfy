/**
 * The engine-facing half of the KataGo wrapper: what a line of engine
 * output means, how a GTP reply decodes into a move, and how the reader
 * thread's handler changes the three shared cells (pending response,
 * ready flag, win probability).
 */
module Protocol {
  import opened Wrappers
  import opened Text

  // ---------------------------------------------------------------- moves

  /**
   * A move as the bot reports it. `Play` carries the reply's coordinate text;
   * turning it into a board point is done by a helper outside this model.
   */
  datatype Move = Play(vertex: string) | Pass | Resign

  /** Decode a GTP reply payload (`_resp2Move`); `None` for anything unrecognised. */
  function Resp2Move(resp: string): (m: Option<Move>)
    ensures m == Some(Pass) <==> Contains(resp, "pass")
    ensures m == Some(Resign) <==> !Contains(resp, "pass") && Contains(resp, "resign")
    ensures (m.Some? && m.value.Play?) <==>
      !Contains(resp, "pass") && !Contains(resp, "resign") && 2 <= |Strip(resp)| <= 3
    ensures m.Some? && m.value.Play? ==> m.value.vertex == resp
  {
    if Contains(resp, "pass") then Some(Pass)
    else if Contains(resp, "resign") then Some(Resign)
    else if 2 <= |Strip(resp)| <= 3 then Some(Play(resp))
    else None
  }

  /** A GTP vertex as KataGo prints it: a column letter A-T without I, then a row of one or two digits. */
  predicate IsVertex(v: string) {
    2 <= |v| <= 3 &&
    'A' <= v[0] <= 'T' && v[0] != 'I' &&
    forall i :: 1 <= i < |v| ==> '0' <= v[i] <= '9'
  }

  /** The text KataGo puts after `= ` for a generated move. */
  function MoveText(m: Move): string {
    match m
    case Play(v) => v
    case Pass => "pass"
    case Resign => "resign"
  }

  lemma StripUnchanged(s: string)
    requires s != [] && !IsSpace(s[0]) && !IsSpace(s[|s| - 1])
    ensures Strip(s) == s
  {
    StripSurrounded("", s, "");
    assert "" + s + "" == s;
  }

  lemma DecodePass()
    ensures Resp2Move("pass") == Some(Pass)
  {
    assert StartsAt("pass", "pass", 0);
  }

  lemma DecodeResign()
    ensures Resp2Move("resign") == Some(Resign)
  {
    assert StartsAt("resign", "resign", 0);
    forall i | 0 <= i <= |"resign"| ensures !StartsAt("resign", "pass", i) {
      FirstCharMismatch("resign", "pass", i);
    }
  }

  /** Every move KataGo can print decodes back to itself. */
  lemma DecodeMoveText(m: Move)
    requires m.Play? ==> IsVertex(m.vertex)
    ensures Resp2Move(MoveText(m)) == Some(m)
  {
    match m
    case Pass => DecodePass();
    case Resign => DecodeResign();
    case Play(v) => StripUnchanged(v);
  }

  // ---------------------------------------------------------------- win rate

  predicate IsNumChar(c: char) {
    '0' <= c <= '9' || c == '.'
  }

  /** Text matched by the regular-expression class `[0-9.]+`. */
  predicate IsNumText(d: string) {
    d != [] && forall i :: 0 <= i < |d| ==> IsNumChar(d[i])
  }

  function NumEnd(s: string, i: nat): (j: nat)
    requires i <= |s|
    ensures i <= j <= |s| && (j == |s| || !IsNumChar(s[j]))
    ensures forall k :: i <= k < j ==> IsNumChar(s[k])
    decreases |s| - i
  {
    if i < |s| && IsNumChar(s[i]) then NumEnd(s, i + 1) else i
  }

  /**
   * The pattern `Winrate\s+[0-9.]+%\s+` matched at position `i`, giving the
   * number it holds. Whitespace, digits and `%` are disjoint classes, so the
   * greedy runs can only end where the next class begins.
   */
  function WinrateAt(s: string, i: nat): (r: Option<string>)
    ensures r.Some? ==> IsNumText(r.value) && StartsAt(s, "Winrate", i)
    ensures r.Some? ==> (exists a :: i + 7 < a && a + |r.value| + 1 < |s| &&
                                AllSpace(s[i + 7..a]) && StartsAt(s, r.value + "%", a) &&
                                IsSpace(s[a + |r.value| + 1]))
  {
    if !StartsAt(s, "Winrate", i) then None
    else
      var a := SpaceEnd(s, i + 7);
      var b := NumEnd(s, a);
      if a == i + 7 || b == a || b + 1 >= |s| || s[b] != '%' || !IsSpace(s[b + 1]) then None
      else
        var d := s[a..b];
        assert s[a..b + 1] == d + "%";
        assert i + 7 < a && a + |d| + 1 < |s| && AllSpace(s[i + 7..a]) &&
               StartsAt(s, d + "%", a) && IsSpace(s[a + |d| + 1]);
        Some(d)
  }

  lemma {:induction false} NumEndAt(s: string, i: nat, j: nat)
    requires i <= j <= |s| && (j == |s| || !IsNumChar(s[j]))
    requires forall k :: i <= k < j ==> IsNumChar(s[k])
    ensures NumEnd(s, i) == j
    decreases j - i
  {
    if i < j { NumEndAt(s, i + 1, j); }
  }

  /** A win-rate clause written out as KataGo's chat output prints it is read back exactly. */
  lemma WinrateAtReadsBack(pre: string, sp: string, d: string, c: char, post: string)
    requires sp != [] && AllSpace(sp) && IsNumText(d) && IsSpace(c)
    ensures WinrateAt(pre + "Winrate" + sp + d + "%" + [c] + post, |pre|) == Some(d)
  {
    var s := pre + "Winrate" + sp + d + "%" + [c] + post;
    var i := |pre|;
    var a := i + 7 + |sp|;
    var b := a + |d|;
    assert s[i..i + 7] == "Winrate";
    assert s[a] == d[0];
    SpaceEndAt(s, i + 7, a);
    assert s[b] == '%';
    NumEndAt(s, a, b);
    assert s[b + 1] == c;
    assert s[a..b] == d;
  }

  /** The leftmost position at or after `from` where the win-rate pattern matches. */
  function FirstWinrate(s: string, from: nat): (r: Option<nat>)
    ensures r.Some? ==> from <= r.value && WinrateAt(s, r.value).Some?
    ensures r.Some? ==> forall j :: from <= j < r.value ==> WinrateAt(s, j).None?
    ensures r.None? ==> forall j :: from <= j ==> WinrateAt(s, j).None?
    decreases |s| - from
  {
    if |s| <= from then None
    else if WinrateAt(s, from).Some? then Some(from)
    else FirstWinrate(s, from + 1)
  }

  /** `re.findall(r'Winrate\s+[0-9.]+%\s+', line)[0]` reduced to its number; `None` where findall finds nothing. */
  function Winrate(line: string): (r: Option<string>)
    ensures r.None? <==> forall i :: WinrateAt(line, i).None?
    ensures r.Some? ==> exists i: nat :: WinrateAt(line, i) == r && forall j :: 0 <= j < i ==> WinrateAt(line, j).None?
  {
    match FirstWinrate(line, 0)
    case None => None
    case Some(i) => WinrateAt(line, i)
  }

  function DotCount(d: string): nat {
    if d == [] then 0 else (if d[0] == '.' then 1 else 0) + DotCount(d[1..])
  }

  predicate HasDigit(d: string) {
    exists i :: 0 <= i < |d| && '0' <= d[i] <= '9'
  }

  /** Python's `float()` accepts a run of digits and dots exactly when it has a digit and at most one dot. */
  predicate FloatParses(d: string) {
    DotCount(d) <= 1 && HasDigit(d)
  }

  // ---------------------------------------------------------------- shared cells

  /** `g_win_prob`: -1 while unknown, otherwise the percentage reported by KataGo (kept as its text). */
  datatype WinProb = Unknown | Known(percent: string)

  /** What `g_response` can hold: a decoded move, or a raw `info` analysis line. */
  datatype Reply = MoveReply(move: Move) | AnalysisReply(line: string)

  /** The three cells the reader thread and a waiting request share. */
  datatype Cells = Cells(slot: Option<Reply>, ready: bool, winProb: WinProb)

  /** The exceptions `_result_handler` can raise on a `CHAT:` line. */
  datatype HandlerError =
    | WinrateMissing      // findall(...)[0] on an empty list: IndexError
    | WinrateNotNumber    // float() on a run of dots and digits it cannot parse: ValueError

  /** The handler's effect: the new cells and the commands it wrote to the engine. */
  datatype Handled = Handled(cells: Cells, sent: seq<string>)

  /** One line of engine output handed to `_result_handler`. */
  function Handle(c: Cells, line: string): Result<Handled, HandlerError> {
    if c.winProb.Unknown? && Contains(line, "CHAT:") then
      match Winrate(line)
      case None => Failure(WinrateMissing)
      case Some(pct) =>
        if FloatParses(pct) then Success(Handled(c.(winProb := Known(pct)), []))
        else Failure(WinrateNotNumber)
    else if Contains(line, "@@") then
      Success(Handled(c, []))
    else if StartsWith(line, "=") then
      assert Contains(line, "=");
      var resp := Strip(SecondField(line, "=").value);
      if resp == [] then Success(Handled(c, []))
      else
        var m := Resp2Move(resp);
        var slot := if m.Some? then Some(MoveReply(m.value)) else None;
        Success(Handled(c.(slot := slot, ready := c.ready || m.Some?), []))
    else if StartsWith(line, "info ") then
      Success(Handled(c.(slot := Some(AnalysisReply(line)), ready := true), ["stop"]))
    else
      Success(Handled(c, []))
  }

  // ---------------------------------------------------------------- handler branches

  /**
   * Whatever the line, the handler never lowers the ready flag, never
   * replaces a known win probability, writes at most one `stop`, and raises
   * only on a `CHAT:` line taken while the probability is unknown whose
   * win-rate clause is missing or not a number.
   */
  lemma HandleInvariants(c: Cells, line: string)
    ensures var r := Handle(c, line);
      (r.Success? && c.ready ==> r.value.cells.ready) &&
      (r.Success? && c.winProb.Known? ==> r.value.cells.winProb == c.winProb) &&
      (r.Success? ==> r.value.sent == [] || r.value.sent == ["stop"]) &&
      (r.Failure? <==>
        c.winProb.Unknown? && Contains(line, "CHAT:") &&
        (Winrate(line).None? || !FloatParses(Winrate(line).value)))
  {
  }

  /** The win-rate branch runs only while the win probability is unknown, and it either raises or records the number. */
  lemma HandleChatLine(c: Cells, line: string)
    requires c.winProb.Unknown? && Contains(line, "CHAT:")
    ensures Winrate(line).None? ==> Handle(c, line) == Failure(WinrateMissing)
    ensures Winrate(line).Some? && !FloatParses(Winrate(line).value) ==> Handle(c, line) == Failure(WinrateNotNumber)
    ensures Handle(c, line).Success? ==>
      Handle(c, line).value == Handled(c.(winProb := Known(Winrate(line).value)), [])
  {
  }

  /** A line the win-rate branch does not take (unknown probability but no `CHAT:`, or a known probability). */
  predicate PastChat(c: Cells, line: string) {
    c.winProb.Known? || !Contains(line, "CHAT:")
  }

  /** A `@@` log line that the win-rate branch does not take changes nothing and sends nothing. */
  lemma HandleLogLine(c: Cells, line: string)
    requires PastChat(c, line) && Contains(line, "@@")
    ensures Handle(c, line) == Success(Handled(c, []))
  {
  }

  /**
   * A GTP success reply: an empty payload is ignored; otherwise the slot is
   * overwritten with the decoded move, even when nothing decodes, and the
   * ready flag is raised only by a move.
   */
  lemma HandleReplyLine(c: Cells, line: string)
    requires PastChat(c, line) && !Contains(line, "@@") && StartsWith(line, "=")
    ensures Contains(line, "=")
    ensures var resp := Strip(SecondField(line, "=").value);
      var m := Resp2Move(resp);
      Handle(c, line) == Success(Handled(
        if resp == [] then c
        else Cells(if m.Some? then Some(MoveReply(m.value)) else None, c.ready || m.Some?, c.winProb),
        []))
  {
  }

  lemma NoEqualsInMoveText(m: Move)
    requires m.Play? ==> IsVertex(m.vertex)
    ensures !Contains(MoveText(m), "=")
  {
    NoFirstCharNoContains(MoveText(m), "=");
  }

  /** Text after a blank that holds no `=` contains no `=`. */
  lemma NoEqualsAfterBlank(t: string, tail: string)
    requires !Contains(t, "=") && AllSpace(tail)
    ensures !Contains(" " + t + tail, "=")
  {
    var u := " " + t + tail;
    forall i | 0 <= i < |u| ensures u[i] != '=' {
      if 1 <= i < 1 + |t| {
        assert u[i] == t[i - 1];
        assert !StartsAt(t, "=", i - 1);
        assert t[i - 1..i] == [t[i - 1]];
      }
    }
    NoFirstCharNoContains(u, "=");
  }

  /** The payload the `=` branch extracts from a `genmove` reply is the move's own text. */
  lemma GenmovePayload(m: Move, tail: string)
    requires m.Play? ==> IsVertex(m.vertex)
    requires AllSpace(tail)
    ensures StartsWith("= " + MoveText(m) + tail, "=") && Contains("= " + MoveText(m) + tail, "=")
    ensures Strip(SecondField("= " + MoveText(m) + tail, "=").value) == MoveText(m)
  {
    var t := MoveText(m);
    var line := "= " + t + tail;
    assert StartsAt(line, "=", 0);
    assert IndexOf(line, "=") == Some(0);
    NoEqualsInMoveText(m);
    assert line[1..] == " " + t + tail;
    NoEqualsAfterBlank(t, tail);
    SecondFieldToEnd(line, "=", 0);
    StripSurrounded(" ", t, tail);
  }

  /** A `genmove` reply holds neither `:` nor `@`, so it is neither a `CHAT:` line nor a `@@` log line. */
  lemma GenmoveReplyNotChatOrLog(m: Move, tail: string)
    requires m.Play? ==> IsVertex(m.vertex)
    requires AllSpace(tail)
    ensures !Contains("= " + MoveText(m) + tail, "CHAT:") && !Contains("= " + MoveText(m) + tail, "@@")
  {
    var t := MoveText(m);
    var line := "= " + t + tail;
    forall i | 0 <= i < |line| ensures line[i] != ':' && line[i] != '@' {
      if 2 <= i < 2 + |t| {
        assert line[i] == t[i - 2];
      } else if 2 + |t| <= i {
        assert line[i] == tail[i - 2 - |t|];
      }
    }
    NoCharNoContains(line, "CHAT:", 4);
    NoFirstCharNoContains(line, "@@");
  }

  /** The reply KataGo prints for `genmove` (`= <move>` and a line end) delivers exactly that move. */
  lemma HandleGenmoveReply(c: Cells, m: Move, tail: string)
    requires m.Play? ==> IsVertex(m.vertex)
    requires AllSpace(tail)
    ensures Handle(c, "= " + MoveText(m) + tail) ==
      Success(Handled(c.(slot := Some(MoveReply(m)), ready := true), []))
  {
    GenmoveReplyNotChatOrLog(m, tail);
    GenmovePayload(m, tail);
    DecodeMoveText(m);
    HandleReplyLine(c, "= " + MoveText(m) + tail);
  }

  /**
   * An `info ` analysis line that no earlier branch takes sends exactly one
   * `stop`, stores the raw line and raises the ready flag, every time.
   */
  lemma HandleAnalysisLine(c: Cells, line: string)
    requires PastChat(c, line) && !Contains(line, "@@") && StartsWith(line, "info ")
    ensures Handle(c, line) == Success(Handled(Cells(Some(AnalysisReply(line)), true, c.winProb), ["stop"]))
  {
    assert line[..5][0] == 'i';
    FirstCharMismatch(line, "=", 0);
  }

  /** A line no branch recognises is dropped. */
  lemma HandleOtherLine(c: Cells, line: string)
    requires PastChat(c, line) && !Contains(line, "@@") && !StartsWith(line, "=") && !StartsWith(line, "info ")
    ensures Handle(c, line) == Success(Handled(c, []))
  {
  }

  /**
   * What the handler ever puts in the slot: a move that its own GTP text
   * decodes back to, or a raw analysis line.
   */
  predicate SlotWellFormed(slot: Option<Reply>) {
    match slot
    case None => true
    case Some(MoveReply(m)) => m.Play? ==> Resp2Move(m.vertex) == Some(m)
    case Some(AnalysisReply(line)) => StartsWith(line, "info ") && !Contains(line, "@@")
  }

  /** The handler keeps the slot well formed. */
  lemma HandleKeepsSlotWellFormed(c: Cells, line: string)
    requires SlotWellFormed(c.slot) && Handle(c, line).Success?
    ensures SlotWellFormed(Handle(c, line).value.cells.slot)
  {
  }

  // ---------------------------------------------------------------- ownership

  /** A figure of KataGo's ownership output, such as `-0.934`. */
  predicate IsFigure(v: string) {
    v != [] && forall i :: 0 <= i < |v| ==> '0' <= v[i] <= '9' || v[i] == '.' || v[i] == '-'
  }

  /**
   * `line.split('ownership')[1].split()`: the whitespace-separated figures
   * after the first `ownership`, up to the next one; `None` where there is no
   * `ownership` and the indexing raises.
   */
  function Ownership(line: string): (r: Option<seq<string>>)
    ensures r.Some? <==> Contains(line, "ownership")
    ensures r.Some? ==> forall k :: 0 <= k < |r.value| ==> IsWord(r.value[k])
  {
    match SecondField(line, "ownership")
    case None => None
    case Some(f) => Some(SplitWs(f))
  }

  /** `ownership` has no proper prefix that is also a suffix, so its first occurrence after plain text is found exactly. */
  lemma FirstOwnership(pre: string, rest: string)
    requires !Contains(pre, "ownership")
    ensures IndexOf(pre + "ownership" + rest, "ownership") == Some(|pre|)
  {
    var key := "ownership";
    var s := pre + key + rest;
    assert s[|pre|..|pre| + 9] == key;
    forall j | 0 <= j < |pre| ensures !StartsAt(s, key, j) {
      if j + 9 <= |pre| {
        assert s[j..j + 9] == pre[j..j + 9];
        assert !StartsAt(pre, key, j);
      } else {
        var k := |pre| - j;
        assert 1 <= k <= 8 && key[k] != 'o';
        assert s[j + k] == s[|pre|..|pre| + 9][0] == 'o';
        CharMismatch(s, key, j, k);
      }
    }
    assert StartsAt(s, key, |pre|);
    var i := IndexOf(s, key).value;
    assert i <= |pre|;
  }

  /** With a single `ownership` in the line, the figures are the whitespace-split of everything after it. */
  lemma OwnershipIsSplitOfRest(pre: string, rest: string)
    requires !Contains(pre, "ownership") && !Contains(rest, "ownership")
    ensures Ownership(pre + "ownership" + rest) == Some(SplitWs(rest))
  {
    var s := pre + "ownership" + rest;
    FirstOwnership(pre, rest);
    assert s[|pre| + 9..] == rest;
    SecondFieldToEnd(s, "ownership", |pre|);
  }

  /**
   * An analysis line ending in `ownership` and figures, separated by any
   * whitespace, yields exactly those figures.
   */
  lemma OwnershipReadsBack(pre: string, seps: seq<string>, figures: seq<string>, tail: string)
    requires !Contains(pre, "ownership")
    requires |seps| == |figures| && Separators(seps) && AllSpace(tail)
    requires forall k :: 0 <= k < |figures| ==> IsFigure(figures[k])
    ensures Ownership(pre + "ownership" + (Interleave(seps, figures) + tail)) == Some(figures)
  {
    var rest := Interleave(seps, figures) + tail;
    InterleaveAvoids(seps, figures, tail, 'o');
    NoFirstCharNoContains(rest, "ownership");
    OwnershipIsSplitOfRest(pre, rest);
    SplitJoin(seps, figures, tail);
  }
}
