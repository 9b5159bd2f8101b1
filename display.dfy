/** The show interpreter's state: channel levels, mirror table, the
    remembered bank of the channel setter, the playback clock and the
    command bookkeeping. One class covers both implementations; the
    `Variant` supplies the constants in which they differ. */
module Display {
  import opened Pins
  import opened MirrorTable
  import opened Clock
  import opened Show

  /** MAX_CHANNELS: 8 in the legacy interpreter, 64 in the class. */
  function Size(v: Variant): nat
  {
    match v
    case Legacy => 8
    case Refactored => 64
  }

  /** The value a reset stores in every mirror slot. */
  function NoMaster(v: Variant): int
  {
    match v
    case Legacy => 0
    case Refactored => -1
  }

  /** The initial value of the setter's remembered bank. */
  function InitialBank(v: Variant): int
  {
    match v
    case Legacy => 0
    case Refactored => -1
  }

  /** The bank of a valid channel lies inside the channel arrays. */
  lemma BankFits(v: Variant, channel: int)
    requires 1 <= channel <= Size(v)
    ensures 0 <= BankOf(channel) && BankStart(BankOf(channel)) + BankWidth <= Size(v)
  {
  }

  /** One line of a show file, already tokenised: the offset, the opcode (as
      `Parse` classifies the token) and
      the operands the opcode reads (a channel, a master channel, seconds for
      `add`, and a word: the song for `play`, the token after `restart`). */
  datatype Command = Command(offset: real, op: Op, channel: int, master: int, seconds: real, word: string)

  /** `on`/`fade_in` and `off`/`fade_out` call the channel setter, with
      level 1 and 0. */
  predicate SetsChannel(op: Op)
  {
    IsOn(op) || IsOff(op)
  }

  function Level(op: Op): int
  {
    if IsOn(op) then 1 else 0
  }

  /** What a show file line must satisfy: the opcode is as the dispatch
      chain classifies its token, the token fits the 10-byte command buffer
      (every keyword does), and a channel operand indexes the channel
      arrays. */
  predicate WellFormed(v: Variant, cmd: Command)
  {
    && Canonical(cmd.op)
    && (cmd.op.Other? ==> |cmd.op.token| < 10)
    && (SetsChannel(cmd.op) || cmd.op == Mirror || cmd.op == Unmirror ==> 1 <= cmd.channel <= Size(v))
  }

  /** `restart night` resets the whole state in the class-based interpreter,
      whose night wait ends with a reset. */
  predicate ResetsOnNight(v: Variant, cmd: Command)
  {
    v == Refactored && cmd.op == Restart && cmd.word == "night"
  }

  /** A command with what its execution consumes: the clock samples of its
      wait and the two time-file polls of a reset. */
  datatype ScriptLine = ScriptLine(cmd: Command, samples: seq<Sample>, initPoll: real, prevPoll: real)

  /** The mirror table after one command: `mirror` and `unmirror` edit the
      slave's slot, the class's `restart night` empties every slot, and no
      other command touches the table. */
  function MirrorEdit(v: Variant, m: seq<int>, cmd: Command): (r: seq<int>)
    ensures |r| == |m|
    ensures forall j :: 0 <= j < |m| && r[j] != m[j] ==>
      ResetsOnNight(v, cmd) || (j == cmd.channel - 1 && (cmd.op == Mirror || cmd.op == Unmirror))
  {
    if cmd.op == Mirror && 1 <= cmd.channel <= |m| then m[cmd.channel - 1 := cmd.master]
    else if cmd.op == Unmirror && 1 <= cmd.channel <= |m| then m[cmd.channel - 1 := 0]
    else if ResetsOnNight(v, cmd) then seq(|m|, _ => NoMaster(v))
    else m
  }

  /** The mirror table after a sequence of commands, all of which fired. */
  function MirrorAfter(v: Variant, m: seq<int>, lines: seq<ScriptLine>): (r: seq<int>)
    ensures |r| == |m|
  {
    if |lines| == 0 then m
    else MirrorEdit(v, MirrorAfter(v, m, lines[..|lines| - 1]), lines[|lines| - 1].cmd)
  }

  /** Executing one more line of a script applies that line's edit. */
  lemma MirrorAfterNext(v: Variant, m: seq<int>, script: seq<ScriptLine>, n: nat)
    requires n < |script|
    ensures MirrorAfter(v, m, script[..n + 1]) == MirrorEdit(v, MirrorAfter(v, m, script[..n]), script[n].cmd)
  {
    assert script[..n + 1][..n] == script[..n];
  }

  /** A `mirror` command that keeps the given rank valid: the new master, when
      it is a channel, ranks above the scanned slave. */
  predicate RespectsRank(v: Variant, scan: nat, rank: seq<nat>, cmd: Command)
  {
    && |rank| == Size(v)
    && (cmd.op == Mirror && 1 <= cmd.channel <= scan <= Size(v) && 1 <= cmd.master <= Size(v)
        ==> rank[cmd.channel - 1] < rank[cmd.master - 1])
  }

  /** After a reset no mirror edge is left, so every rank is respected. */
  lemma NoMasterRanked(v: Variant, scan: nat, rank: seq<nat>)
    requires scan <= Size(v) && |rank| == Size(v)
    ensures Ranked(seq(Size(v), _ => NoMaster(v)), scan, rank)
  {
  }

  /** Whatever a command does to the mirror table, a rank it respects stays
      valid: edits respect it and a reset leaves no edge. */
  lemma RankKept(v: Variant, scan: nat, rank: seq<nat>, m: seq<int>, cmd: Command)
    requires Ranked(m, scan, rank) && |m| == Size(v)
    requires RespectsRank(v, scan, rank, cmd)
    ensures Ranked(MirrorEdit(v, m, cmd), scan, rank)
  {
    if cmd.op == Mirror && 1 <= cmd.channel <= |m| {
      RankedAfterEdit(m, scan, rank, cmd.channel - 1, cmd.master);
    } else if cmd.op == Unmirror && 1 <= cmd.channel <= |m| {
      RankedAfterEdit(m, scan, rank, cmd.channel - 1, 0);
    } else if ResetsOnNight(v, cmd) {
      NoMasterRanked(v, scan, rank);
    }
  }

  /** How many commands of a script run when no wait stalls: every command
      up to the first one that stops the show, or the whole script. */
  function ShowLength(v: Variant, script: seq<ScriptLine>): (n: nat)
    ensures n <= |script| && (n == 0 <==> |script| == 0)
    ensures forall k :: 0 <= k < n - 1 ==> ShowRuns(v, StoredOp(v, script[k].cmd.op))
    ensures 0 < n < |script| ==> !ShowRuns(v, StoredOp(v, script[n - 1].cmd.op))
  {
    ShowLengthFrom(v, script, 0)
  }

  /** `ShowLength` for a show that has reached line i still running. */
  function ShowLengthFrom(v: Variant, script: seq<ScriptLine>, i: nat): (n: nat)
    requires i <= |script|
    ensures i <= n <= |script| && (n == i <==> i == |script|)
    ensures forall k :: i <= k < n - 1 ==> ShowRuns(v, StoredOp(v, script[k].cmd.op))
    ensures i < n < |script| ==> !ShowRuns(v, StoredOp(v, script[n - 1].cmd.op))
    decreases |script| - i
  {
    if i == |script| then i
    else if !ShowRuns(v, StoredOp(v, script[i].cmd.op)) then i + 1
    else ShowLengthFrom(v, script, i + 1)
  }

  /** Every command before line n - 1 keeps the show running: line n - 1
      may be the next to run. */
  predicate RunsThrough(v: Variant, script: seq<ScriptLine>, n: nat)
    requires n <= |script|
  {
    n <= 1 || (RunsThrough(v, script, n - 1) && ShowRuns(v, StoredOp(v, script[n - 2].cmd.op)))
  }

  /** The lines a show may still reach are exactly those up to
      `ShowLength`. */
  lemma {:induction false} RunsThroughLength(v: Variant, script: seq<ScriptLine>, n: nat)
    requires 0 < n <= |script|
    ensures RunsThrough(v, script, n) <==> n <= ShowLength(v, script)
    decreases n
  {
    if n > 1 {
      RunsThroughLength(v, script, n - 1);
    }
  }

  /** Running commands while the show runs stops exactly at `ShowLength`:
      once the script is exhausted or the last command stopped the show,
      no further command belongs to it. */
  lemma ShowEnds(v: Variant, script: seq<ScriptLine>, n: nat)
    requires n <= |script| && RunsThrough(v, script, n)
    requires n == |script| || (n > 0 && !ShowRuns(v, StoredOp(v, script[n - 1].cmd.op)))
    ensures n == ShowLength(v, script)
  {
    if n > 0 {
      RunsThroughLength(v, script, n);
    }
  }

  /** Some command of the script stops the show, as every show file must
      end with one. */
  predicate Stops(v: Variant, script: seq<ScriptLine>)
  {
    exists k :: 0 <= k < |script| && !ShowRuns(v, StoredOp(v, script[k].cmd.op))
  }

  /** The opcode of the command that stops the show, if any does. */
  function StoppedBy(v: Variant, script: seq<ScriptLine>): (r: Option<Op>)
    ensures r.Some? ==> && ShowLength(v, script) > 0
                        && r.value == script[ShowLength(v, script) - 1].cmd.op
                        && !ShowRuns(v, StoredOp(v, r.value))
  {
    var n := ShowLength(v, script);
    if n > 0 && !ShowRuns(v, StoredOp(v, script[n - 1].cmd.op)) then Some(script[n - 1].cmd.op) else None
  }

  /** A show is stopped by a command exactly when some command of its
      script stops it. */
  lemma StoppedByStops(v: Variant, script: seq<ScriptLine>)
    ensures StoppedBy(v, script).Some? <==> Stops(v, script)
  {
  }

  /** The tables at the `on` and `off` commands of a script, started from
      `m`, are acyclic, and every command is well formed. The table may
      change between them: only the setter needs it acyclic. */
  ghost predicate ShowAcceptable(v: Variant, scan: nat, m: seq<int>, script: seq<ScriptLine>)
  {
    forall k {:trigger LineAcceptable(v, scan, m, script, k)} :: 0 <= k < |script| ==> LineAcceptable(v, scan, m, script, k)
  }

  /** Line k of a script is well formed and, when it sets a channel, the
      table it meets is acyclic. */
  ghost predicate LineAcceptable(v: Variant, scan: nat, m: seq<int>, script: seq<ScriptLine>, k: int)
    requires 0 <= k < |script|
  {
    && WellFormed(v, script[k].cmd)
    && (SetsChannel(script[k].cmd.op) ==> Acyclic(MirrorAfter(v, m, script[..k]), scan))
  }

  /** What one pass of the outer loop consumes: the name typed at the
      prompt, the two time-file polls of the reset, and the show file's
      commands (None: the file could not be opened). */
  datatype Session = Session(typed: string, initPoll: real, prevPoll: real, script: Option<seq<ScriptLine>>)

  /** A show file that can be opened ends with a command that stops the
      show, and is acceptable from the table a reset leaves. */
  ghost predicate SessionAcceptable(v: Variant, scan: nat, session: Session)
  {
    session.script.Some? ==>
      && Stops(v, session.script.value)
      && ShowAcceptable(v, scan, seq(Size(v), _ => NoMaster(v)), session.script.value)
  }

  /** The opcode that stopped a session's show; None when the file could not
      be opened. */
  function SessionStop(v: Variant, session: Session): Option<Op>
  {
    if session.script.Some? then StoppedBy(v, session.script.value) else None
  }

  /** `stops[k]` is the opcode that stopped show k, for every show so far. */
  ghost predicate StopsOf(v: Variant, sessions: seq<Session>, stops: seq<Option<Op>>)
  {
    |stops| <= |sessions| && forall k :: 0 <= k < |stops| ==> stops[k] == SessionStop(v, sessions[k])
  }

  lemma StopsOfNext(v: Variant, sessions: seq<Session>, stops: seq<Option<Op>>)
    requires StopsOf(v, sessions, stops) && |stops| < |sessions|
    ensures StopsOf(v, sessions, stops + [SessionStop(v, sessions[|stops|])])
  {
    var stops' := stops + [SessionStop(v, sessions[|stops|])];
    forall k | 0 <= k < |stops'|
      ensures stops'[k] == SessionStop(v, sessions[k])
    {
      if k < |stops| {
        assert stops'[k] == stops[k];
      }
    }
  }

  /** The class's outer loop after `shows` shows: `stops[k]` is the opcode
      that stopped show k and `files[k]` the file it read; no show before
      the last stopped on `end`; the first file is chosen from the name given
      to runDisplay, and each later one is the previous file after `restart`
      and the name typed at the prompt otherwise. */
  ghost predicate ShowsSoFar(show: string, restart0: bool, filename0: string, sessions: seq<Session>,
                             files: seq<string>, stops: seq<Option<Op>>)
  {
    && |files| == |stops| <= |sessions|
    && StopsOf(Refactored, sessions, stops)
    && (forall k :: 0 <= k < |stops| - 1 ==> stops[k] != Some(End))
    && (|files| > 0 ==> files[0] == SelectShow(restart0, show, filename0, sessions[0].typed).filename)
    && (forall k :: 0 < k < |files| ==> FileFollows(sessions, files, stops, k))
  }

  /** Show k > 0 of the class's outer loop read the previous show's file
      after a `restart` and the name typed at its prompt otherwise. */
  ghost predicate FileFollows(sessions: seq<Session>, files: seq<string>, stops: seq<Option<Op>>, k: int)
    requires 0 < k < |files| == |stops| <= |sessions|
  {
    files[k] == if stops[k - 1] == Some(Restart) then files[k - 1] else WithDefaultExtension(sessions[k].typed)
  }

  /** One more show keeps `ShowsSoFar`: it starts from the mark and file the
      previous show left, or from runDisplay's own when it is the first. */
  lemma {:induction false} ShowsSoFarNext(show: string, restart0: bool, filename0: string, sessions: seq<Session>,
                                          files: seq<string>, stops: seq<Option<Op>>,
                                          restart: bool, filename: string, rest: string)
    requires ShowsSoFar(show, restart0, filename0, sessions, files, stops) && |files| < |sessions|
    requires |files| == 0 ==> restart == restart0 && filename == filename0 && rest == show
    requires |files| > 0 ==> && rest == "" && filename == files[|files| - 1]
                             && (restart <==> stops[|stops| - 1] == Some(Restart))
                             && stops[|stops| - 1] != Some(End)
    ensures var n := |files|;
      ShowsSoFar(show, restart0, filename0, sessions,
                 files + [SelectShow(restart, rest, filename, sessions[n].typed).filename],
                 stops + [SessionStop(Refactored, sessions[n])])
  {
    var n := |files|;
    var files', stops' := files + [SelectShow(restart, rest, filename, sessions[n].typed).filename],
                          stops + [SessionStop(Refactored, sessions[n])];
    StopsOfNext(Refactored, sessions, stops);
    forall k | 0 <= k < |stops'| - 1
      ensures stops'[k] != Some(End)
    {
      assert stops'[k] == stops[k];
    }
    forall k | 0 < k < |files'|
      ensures FileFollows(sessions, files', stops', k)
    {
      assert stops'[k - 1] == stops[k - 1] && files'[k - 1] == files[k - 1];
      if k == n {
        NamelessSelection(restart, filename, sessions[n].typed);
      } else {
        assert FileFollows(sessions, files, stops, k);
        assert files'[k] == files[k];
      }
    }
  }

  /** The legacy outer loop after `files` shows: `stops[k]` is the opcode
      that stopped show k and `files[k]` the file it read; a command-line
      argument names every file, and without one each later file is the
      previous one after `restart` and the name typed at the prompt
      otherwise. */
  ghost predicate LegacyShowsSoFar(arg: Option<string>, restart0: bool, filename0: string, sessions: seq<Session>,
                                   files: seq<string>, stops: seq<Option<Op>>)
  {
    && |files| == |stops| <= |sessions|
    && StopsOf(Legacy, sessions, stops)
    && (|files| > 0 ==> files[0] == SelectShowLegacy(restart0, arg, filename0, sessions[0].typed).filename)
    && (forall k :: 0 < k < |files| ==> LegacyFileFollows(arg, sessions, files, stops, k))
  }

  /** Show k > 0 of the legacy outer loop read the argument's file when
      there is one, and otherwise the previous show's file after a
      `restart` and the name typed at its prompt. */
  ghost predicate LegacyFileFollows(arg: Option<string>, sessions: seq<Session>, files: seq<string>,
                                    stops: seq<Option<Op>>, k: int)
    requires 0 < k < |files| == |stops| <= |sessions|
  {
    files[k] == if arg.Some? then WithDefaultExtension(arg.value)
                else if stops[k - 1] == Some(Restart) then files[k - 1]
                else WithDefaultExtension(sessions[k].typed)
  }

  /** One more legacy show keeps `LegacyShowsSoFar`. */
  lemma {:induction false} LegacyShowsSoFarNext(arg: Option<string>, restart0: bool, filename0: string, sessions: seq<Session>,
                                                files: seq<string>, stops: seq<Option<Op>>,
                                                restart: bool, filename: string)
    requires LegacyShowsSoFar(arg, restart0, filename0, sessions, files, stops) && |files| < |sessions|
    requires |files| == 0 ==> restart == restart0 && filename == filename0
    requires |files| > 0 ==> filename == files[|files| - 1] && (restart <==> stops[|stops| - 1] == Some(Restart))
    ensures var n := |files|;
      LegacyShowsSoFar(arg, restart0, filename0, sessions,
                       files + [SelectShowLegacy(restart, arg, filename, sessions[n].typed).filename],
                       stops + [SessionStop(Legacy, sessions[n])])
  {
    var n := |files|;
    var files', stops' := files + [SelectShowLegacy(restart, arg, filename, sessions[n].typed).filename],
                          stops + [SessionStop(Legacy, sessions[n])];
    StopsOfNext(Legacy, sessions, stops);
    assert files'[0] == SelectShowLegacy(restart0, arg, filename0, sessions[0].typed).filename by {
      if n > 0 {
        assert files'[0] == files[0];
      }
    }
    forall k | 0 < k < |files'|
      ensures LegacyFileFollows(arg, sessions, files', stops', k)
    {
      assert stops'[k - 1] == stops[k - 1] && files'[k - 1] == files[k - 1];
      if k == n {
        assert files'[k] == SelectShowLegacy(restart, arg, filename, sessions[n].typed).filename;
      } else {
        assert LegacyFileFollows(arg, sessions, files, stops, k);
        assert files'[k] == files[k];
      }
    }
  }

  /** `mirror 2 1`, `unmirror 2`, `mirror 1 2`, `on 1`: the table is acyclic
      when `on` runs, although the two mirrors point opposite ways. */
  lemma MirrorSwapAcceptable()
    ensures var l := (op, ch, master) => ScriptLine(Command(0.0, op, ch, master, 0.0, ""), [], 0.0, 0.0);
      ShowAcceptable(Refactored, 8, seq(64, _ => NoMaster(Refactored)),
                     [l(Mirror, 2, 1), l(Unmirror, 2, 0), l(Mirror, 1, 2), l(On, 1, 0)])
  {
    var l := (op, ch, master) => ScriptLine(Command(0.0, op, ch, master, 0.0, ""), [], 0.0, 0.0);
    var script := [l(Mirror, 2, 1), l(Unmirror, 2, 0), l(Mirror, 1, 2), l(On, 1, 0)];
    var m0: seq<int> := seq(64, _ => NoMaster(Refactored));
    assert script[..3][..2][..1][..0] == [];
    assert MirrorAfter(Refactored, m0, script[..1]) == m0[1 := 1];
    assert script[..3][..2][..1] == script[..1];
    assert MirrorAfter(Refactored, m0, script[..2]) == m0[1 := 1][1 := 0];
    assert script[..3][..2] == script[..2];
    var t := MirrorAfter(Refactored, m0, script[..3]);
    assert t == m0[1 := 1][1 := 0][0 := 2];
    var rank: seq<nat> := seq(64, k => if k == 1 then 1 else 0);
    assert Ranked(t, 8, rank);
  }

  /** The setter's effect: levels, remembered bank and the calls recorded. */
  datatype SetterState = SetterState(levels: seq<int>, lastset: int, frames: seq<Frame>)

  /** One call of the channel setter, depth first: set the channel, record
      the frame of its bank (addressed iff the bank changed), then run the
      setter on every scanned slave in slot order. */
  ghost function SetterRun(v: Variant, m: seq<int>, scan: nat, rank: seq<nat>, s: SetterState, c: int, l: int): (r: SetterState)
    requires |m| == Size(v) && Ranked(m, scan, rank) && 1 <= c <= |m| && |s.levels| == Size(v)
    ensures |r.levels| == Size(v)
    decreases rank[c - 1], 1, 0
  {
    BankFits(v, c);
    var levels := s.levels[c - 1 := l];
    var bank := BankOf(c);
    var f := Frame(bank, bank != s.lastset, levels[BankStart(bank) .. BankStart(bank) + BankWidth]);
    SlavesRun(v, m, scan, rank, SetterState(levels, bank, s.frames + [f]), c, l, scan)
  }

  /** The setter's loop over slots 0..i-1, recursing into each slave of c. */
  ghost function SlavesRun(v: Variant, m: seq<int>, scan: nat, rank: seq<nat>, s: SetterState, c: int, l: int, i: nat): (r: SetterState)
    requires |m| == Size(v) && Ranked(m, scan, rank) && 1 <= c <= |m| && i <= scan && |s.levels| == Size(v)
    ensures |r.levels| == Size(v)
    decreases rank[c - 1], 0, i
  {
    if i == 0 then s
    else
      var s' := SlavesRun(v, m, scan, rank, s, c, l, i - 1);
      if m[i - 1] == c then assert IsEdge(m, scan, i - 1); SetterRun(v, m, scan, rank, s', i, l) else s'
  }

  /** A setter call sets exactly the reached channels, records the target's
      own frame first and only appends to the record, and leaves the bank of
      its last frame remembered. */
  lemma {:induction false} SetterRunLevels(v: Variant, m: seq<int>, scan: nat, rank: seq<nat>, s: SetterState, c: int, l: int)
    requires |m| == Size(v) && Ranked(m, scan, rank) && 1 <= c <= |m| && |s.levels| == Size(v)
    ensures var r := SetterRun(v, m, scan, rank, s, c, l);
      && BankStart(BankOf(c)) + BankWidth <= Size(v)
      && r.levels == Assign(s.levels, Reached(m, scan, rank, c), l)
      && |s.frames| < |r.frames| && r.frames[..|s.frames|] == s.frames
      && r.frames[|s.frames|] == Frame(BankOf(c), BankOf(c) != s.lastset,
           Assign(s.levels, {c}, l)[BankStart(BankOf(c)) .. BankStart(BankOf(c)) + BankWidth])
      && r.lastset == r.frames[|r.frames| - 1].bank
    decreases rank[c - 1], 1, 0
  {
    BankFits(v, c);
    var levels := s.levels[c - 1 := l];
    var bank := BankOf(c);
    var f := Frame(bank, bank != s.lastset, levels[BankStart(bank) .. BankStart(bank) + BankWidth]);
    var s1 := SetterState(levels, bank, s.frames + [f]);
    SlavesRunLevels(v, m, scan, rank, s1, c, l, scan);
    assert levels == Assign(s.levels, {c}, l);
    AssignTwice(s.levels, {c}, Slaves(m, scan, rank, c, scan), l);
    var r := SlavesRun(v, m, scan, rank, s1, c, l, scan);
    assert r.frames[..|s1.frames|] == s1.frames;
    assert r.frames[..|s.frames|] == s1.frames[..|s.frames|];
  }

  lemma {:induction false} SlavesRunLevels(v: Variant, m: seq<int>, scan: nat, rank: seq<nat>, s: SetterState, c: int, l: int, i: nat)
    requires |m| == Size(v) && Ranked(m, scan, rank) && 1 <= c <= |m| && i <= scan && |s.levels| == Size(v)
    requires |s.frames| > 0 && s.lastset == s.frames[|s.frames| - 1].bank
    ensures var r := SlavesRun(v, m, scan, rank, s, c, l, i);
      && r.levels == Assign(s.levels, Slaves(m, scan, rank, c, i), l)
      && |s.frames| <= |r.frames| && r.frames[..|s.frames|] == s.frames
      && r.lastset == r.frames[|r.frames| - 1].bank
    decreases rank[c - 1], 0, i
  {
    if i > 0 {
      SlavesRunLevels(v, m, scan, rank, s, c, l, i - 1);
      var s' := SlavesRun(v, m, scan, rank, s, c, l, i - 1);
      if m[i - 1] == c {
        RankedEdge(m, scan, rank, i - 1);
        SetterRunLevels(v, m, scan, rank, s', i, l);
        AssignTwice(s.levels, Slaves(m, scan, rank, c, i - 1), Reached(m, scan, rank, i), l);
        var r := SetterRun(v, m, scan, rank, s', i, l);
        assert r.frames[..|s.frames|] == r.frames[..|s'.frames|][..|s.frames|];
      }
    }
  }

  /** Everything a line of a show can change, as the interpreter's fields
      hold it: levels, mirror table, remembered bank, the recorded setter
      calls (of which the pin log is made), clock, the poll taken at the
      reset, `add`, line counter, song and the lines reported as unknown.
      The command register and the restart mark are stated on their own. */
  datatype Machine = Machine(levels: seq<int>, table: seq<int>, lastset: int, frames: seq<Frame>,
                             clock: Clock, initTime: real, add: real, line: int,
                             song: string, reports: seq<int>)

  /** A rank of an acyclic table, the same one wherever it is asked for. */
  ghost function SomeRank(m: seq<int>, scan: nat): (rank: seq<nat>)
    requires Acyclic(m, scan)
    ensures Ranked(m, scan, rank)
  {
    var rank :| Ranked(m, scan, rank); rank
  }

  /** What the dispatch chain does to the machine once a command is due.
      Only `on`/`off` call the setter and so touch the pins; the class's
      `restart night` resets levels, table, clock and counters. The source
      never returns from an `on`/`off` that meets a cycle; that case is
      left unchanged here, and an acceptable show never meets it. */
  ghost function Dispatched(v: Variant, scan: nat, s: Machine, cmd: Command, initPoll: real, prevPoll: real): (r: Machine)
    ensures |s.frames| <= |r.frames| && r.frames[..|s.frames|] == s.frames
    ensures !SetsChannel(cmd.op) ==> r.frames == s.frames && r.lastset == s.lastset
    ensures !SetsChannel(cmd.op) && !ResetsOnNight(v, cmd) ==> r.levels == s.levels
    ensures !ResetsOnNight(v, cmd) ==> r.line == s.line && r.clock == s.clock
  {
    if cmd.op == Play then s.(song := cmd.word)
    else if SetsChannel(cmd.op) then
      if |s.table| == Size(v) == |s.levels| && 1 <= cmd.channel <= Size(v) && Acyclic(s.table, scan) then
        var rank := SomeRank(s.table, scan);
        var before := SetterState(s.levels, s.lastset, s.frames);
        SetterRunLevels(v, s.table, scan, rank, before, cmd.channel, Level(cmd.op));
        var after := SetterRun(v, s.table, scan, rank, before, cmd.channel, Level(cmd.op));
        s.(levels := after.levels, lastset := after.lastset, frames := after.frames)
      else s
    else if ResetsOnNight(v, cmd) then
      s.(levels := seq(Size(v), _ => 0), table := MirrorEdit(v, s.table, cmd), clock := Clock(0.0, prevPoll),
         initTime := initPoll, add := 0.0, line := 0)
    else if cmd.op == Restart then s
    else s.(table := MirrorEdit(v, s.table, cmd), add := if cmd.op == Add then s.add + cmd.seconds else s.add,
            reports := if Known(v, cmd.op) then s.reports else s.reports + [s.line])
  }

  /** Whether a line's command becomes due before its clock samples run out. */
  predicate LineFires(s: Machine, l: ScriptLine)
  {
    var used := Wait(l.cmd.offset, s.clock, l.samples, l.cmd.op, s.add);
    Due(l.cmd.offset, Run(s.clock, l.samples[..used], l.cmd.op).curr, s.add)
  }

  /** One line of a show: count it, hold its opcode, run the clock over the
      samples the wait consumes, and dispatch the command if it became due. */
  ghost function LineEffect(v: Variant, scan: nat, s: Machine, l: ScriptLine): (r: Machine)
    ensures |s.frames| <= |r.frames| && r.frames[..|s.frames|] == s.frames
    ensures !ResetsOnNight(v, l.cmd) ==> r.line == s.line + 1
    ensures !(LineFires(s, l) && SetsChannel(l.cmd.op)) ==> r.frames == s.frames && r.lastset == s.lastset
  {
    var op := l.cmd.op;
    var used := Wait(l.cmd.offset, s.clock, l.samples, op, s.add);
    var fired := LineFires(s, l);
    var s1 := s.(clock := Run(s.clock, l.samples[..used], op), line := s.line + 1);
    if fired then Dispatched(v, scan, s1, l.cmd, l.initPoll, l.prevPoll) else s1
  }

  /** The dispatch chain's effect, field by field, is `Dispatched`. */
  lemma DispatchEffect(v: Variant, scan: nat, s1: Machine, s: Machine, cmd: Command, initPoll: real, prevPoll: real, rank: seq<nat>)
    requires |s1.levels| == Size(v) && |s1.table| == Size(v) && WellFormed(v, cmd)
    requires SetsChannel(cmd.op) ==> Acyclic(s1.table, scan) && rank == SomeRank(s1.table, scan)
    requires s.line == if ResetsOnNight(v, cmd) then 0 else s1.line
    requires !ResetsOnNight(v, cmd) ==> s.clock == s1.clock && s.initTime == s1.initTime
    requires ResetsOnNight(v, cmd) ==> s.clock == Clock(0.0, prevPoll) && s.initTime == initPoll
    requires s.song == if cmd.op == Play then cmd.word else s1.song
    requires s.reports == if !Known(v, cmd.op) then s1.reports + [s1.line] else s1.reports
    requires SetsChannel(cmd.op) ==>
      SetterState(s.levels, s.lastset, s.frames)
      == SetterRun(v, s1.table, scan, rank, SetterState(s1.levels, s1.lastset, s1.frames), cmd.channel, Level(cmd.op))
    requires !SetsChannel(cmd.op) ==> s.lastset == s1.lastset && s.frames == s1.frames
    requires ResetsOnNight(v, cmd) ==> s.levels == seq(Size(v), _ => 0)
    requires !(SetsChannel(cmd.op) || ResetsOnNight(v, cmd)) ==> s.levels == s1.levels
    requires s.table == MirrorEdit(v, s1.table, cmd)
    requires s.add == if cmd.op == Add then s1.add + cmd.seconds else if ResetsOnNight(v, cmd) then 0.0 else s1.add
    ensures s == Dispatched(v, scan, s1, cmd, initPoll, prevPoll)
  {
  }

  /** executeCommand's effect, field by field, is `LineEffect`. */
  lemma CommandEffect(v: Variant, scan: nat, s0: Machine, s: Machine, l: ScriptLine, used: nat, fired: bool, rank: seq<nat>)
    requires |s0.levels| == Size(v) && |s0.table| == Size(v) && WellFormed(v, l.cmd)
    requires SetsChannel(l.cmd.op) ==> Acyclic(s0.table, scan) && rank == SomeRank(s0.table, scan)
    requires used == Wait(l.cmd.offset, s0.clock, l.samples, l.cmd.op, s0.add) && fired == LineFires(s0, l)
    requires s.line == if fired && ResetsOnNight(v, l.cmd) then 0 else s0.line + 1
    requires !(fired && ResetsOnNight(v, l.cmd)) ==>
      s.clock == Run(s0.clock, l.samples[..used], l.cmd.op) && s.initTime == s0.initTime
    requires fired && ResetsOnNight(v, l.cmd) ==> s.clock == Clock(0.0, l.prevPoll) && s.initTime == l.initPoll
    requires s.song == if fired && l.cmd.op == Play then l.cmd.word else s0.song
    requires s.reports == if fired && !Known(v, l.cmd.op) then s0.reports + [s0.line + 1] else s0.reports
    requires fired && SetsChannel(l.cmd.op) ==>
      SetterState(s.levels, s.lastset, s.frames)
      == SetterRun(v, s0.table, scan, rank, SetterState(s0.levels, s0.lastset, s0.frames), l.cmd.channel, Level(l.cmd.op))
    requires !(fired && SetsChannel(l.cmd.op)) ==> s.lastset == s0.lastset && s.frames == s0.frames
    requires fired && ResetsOnNight(v, l.cmd) ==> s.levels == seq(Size(v), _ => 0)
    requires !(fired && (SetsChannel(l.cmd.op) || ResetsOnNight(v, l.cmd))) ==> s.levels == s0.levels
    requires s.table == if fired then MirrorEdit(v, s0.table, l.cmd) else s0.table
    requires s.add == if fired && l.cmd.op == Add then s0.add + l.cmd.seconds
                      else if fired && ResetsOnNight(v, l.cmd) then 0.0 else s0.add
    ensures s == LineEffect(v, scan, s0, l)
  {
    var s1 := s0.(clock := Run(s0.clock, l.samples[..used], l.cmd.op), line := s0.line + 1);
    if fired {
      DispatchEffect(v, scan, s1, s, l.cmd, l.initPoll, l.prevPoll, rank);
    }
  }

  /** The machine after a sequence of lines, each run as `LineEffect` says.
      The record of setter calls only grows, and without a night reset
      every line is counted. */
  ghost function MachineAfter(v: Variant, scan: nat, lines: seq<ScriptLine>, s: Machine): (r: Machine)
    ensures |s.frames| <= |r.frames| && r.frames[..|s.frames|] == s.frames
    ensures (forall k :: 0 <= k < |lines| ==> !ResetsOnNight(v, lines[k].cmd)) ==> r.line == s.line + |lines|
  {
    if |lines| == 0 then s
    else
      var first := LineEffect(v, scan, s, lines[0]);
      var r := MachineAfter(v, scan, lines[1..], first);
      assert r.frames[..|s.frames|] == r.frames[..|first.frames|][..|s.frames|];
      assert (forall k :: 0 <= k < |lines| ==> !ResetsOnNight(v, lines[k].cmd)) ==>
        forall k :: 0 <= k < |lines[1..]| ==> !ResetsOnNight(v, lines[1..][k].cmd);
      r
  }

  /** Running one more line after a sequence is running it on the machine
      the sequence left. */
  lemma {:induction false} MachineAfterSnoc(v: Variant, scan: nat, s: Machine, lines: seq<ScriptLine>, l: ScriptLine)
    ensures MachineAfter(v, scan, lines + [l], s) == LineEffect(v, scan, MachineAfter(v, scan, lines, s), l)
    decreases |lines|
  {
    if |lines| > 0 {
      assert (lines + [l])[1..] == lines[1..] + [l];
      MachineAfterSnoc(v, scan, LineEffect(v, scan, s, lines[0]), lines[1..], l);
    }
  }

  class LightDisplay {
    const variant: Variant
    /** How many mirror slots the setter scans for slaves (currentChannels). */
    const scan: nat
    /** Channel levels, indexed by channel number minus one. */
    const setchan: array<int>
    /** Master of each channel, indexed by channel number minus one. */
    const mirror: array<int>
    /** The setter's static "last bank" variable. */
    var lastset: int
    /** Every GPIO write, in order. */
    var log: seq<Write>
    /** The setter calls that produced the log. */
    ghost var frames: seq<Frame>

    var add: real
    var currTime: real
    var prevTime: real
    var initTime: real
    var line: int
    var restart: bool
    var str: Op
    var filename: string
    var song: string
    /** Line numbers reported for unknown opcodes. */
    var reports: seq<int>

    /** The fields a line of a show can change. */
    ghost function Snapshot(): Machine
      reads this, setchan, mirror
    {
      Machine(setchan[..], mirror[..], lastset, frames, Clock(currTime, prevTime), initTime, add, line, song, reports)
    }

    ghost predicate Valid()
      reads this
    {
      && setchan.Length == Size(variant) && mirror.Length == Size(variant)
      && setchan != mirror
      && scan <= Size(variant)
      && LogExplained(log, frames, InitialBank(variant), lastset)
    }

    /** The class's constructor with `channels` channels in use; the legacy
        interpreter always scans all 8 slots. */
    constructor (v: Variant, channels: nat)
      requires channels < Size(v)
      ensures Valid() && variant == v
      ensures scan == (if v == Legacy then Size(v) else channels)
      ensures setchan[..] == seq(Size(v), _ => 0) && mirror[..] == seq(Size(v), _ => NoMaster(v))
      ensures lastset == InitialBank(v) && log == [] && frames == []
      ensures add == 0.0 && currTime == 0.0 && prevTime == 0.0 && line == 0
      ensures !restart && str == Start && reports == []
      ensures fresh(setchan) && fresh(mirror)
    {
      variant := v;
      scan := if v == Legacy then Size(v) else channels;
      setchan := new int[Size(v)](_ => 0);
      mirror := new int[Size(v)](_ => NoMaster(v));
      lastset := InitialBank(v);
      log := [];
      frames := [];
      add := 0.0;
      currTime := 0.0;
      prevTime := 0.0;
      initTime := 0.0;
      line := 0;
      restart := false;
      str := Start;
      filename := "";
      song := "";
      reports := [];
    }

    /** The data part of a setter call: pins 0..7 := the bank's 8 levels,
        in pin order. */
    method BankWrites(bank: int) returns (w: seq<Write>)
      requires 0 <= bank && BankStart(bank) + BankWidth <= setchan.Length
      ensures w == DataWrites(setchan[BankStart(bank) .. BankStart(bank) + BankWidth])
    {
      ghost var word := setchan[BankStart(bank) .. BankStart(bank) + BankWidth];
      w := [];
      var i := 0;
      while i < BankWidth
        invariant 0 <= i <= BankWidth
        invariant w == DataWrites(word[..i])
      {
        w := w + [Write(i, setchan[BankStart(bank) + i])];
        assert DataWrites(word[..i + 1]) == DataWrites(word[..i]) + [Write(i, word[i])];
        i := i + 1;
      }
      assert word[..BankWidth] == word;
    }

    /** The write part of a setter call: disable the decoder, store the
        level, drive the address lines if the bank changed, write the bank's
        word, enable the decoder and remember the bank. */
    method WriteBank(channel: int, level: int)
      requires Valid() && 1 <= channel <= Size(variant)
      modifies this`lastset, this`log, this`frames, setchan
      ensures Valid()
      ensures setchan[..] == old(setchan[..])[channel - 1 := level] && lastset == BankOf(channel)
      ensures frames == old(frames) + [Frame(BankOf(channel), BankOf(channel) != old(lastset),
                 setchan[BankStart(BankOf(channel)) .. BankStart(BankOf(channel)) + BankWidth])]
    {
      var bank := BankOf(channel);
      BankFits(variant, channel);
      setchan[channel - 1] := level;
      var addressed := bank != lastset;
      // As written, every decoder bit is bank % 2.
      var address := if addressed then AddressWrites(bank) else [];
      var data := BankWrites(bank);
      ghost var f0 := Frame(bank, addressed, setchan[BankStart(bank) .. BankStart(bank) + BankWidth]);
      var log1 := log + [Write(EnablePin, 0)] + address + data + [Write(EnablePin, 1)];
      FrameAppended(frames, InitialBank(variant), f0, log, log1);
      log := log1;
      lastset := bank;
      frames := frames + [f0];
    }

    /** channel_setter: sets the channel, writes its bank to the pins, then
        recurses into every scanned slave of the channel. The levels, the
        remembered bank and the recorded calls are those of `SetterRun`, so
        every channel whose mirror chain leads to `channel` ends at `level`
        and no other level changes. */
    method ChannelSetter(channel: int, level: int, ghost rank: seq<nat>)
      requires Valid() && 1 <= channel <= Size(variant) && (level == 0 || level == 1)
      requires Ranked(mirror[..], scan, rank)
      modifies this`lastset, this`log, this`frames, setchan
      ensures Valid()
      ensures SetterState(setchan[..], lastset, frames)
              == SetterRun(variant, mirror[..], scan, rank, SetterState(old(setchan[..]), old(lastset), old(frames)), channel, level)
      ensures setchan[..] == Assign(old(setchan[..]), Reached(mirror[..], scan, rank, channel), level)
      decreases rank[channel - 1], 1
    {
      ghost var s0 := SetterState(setchan[..], lastset, frames);
      WriteBank(channel, level);
      SetSlaves(channel, level, rank);
      SetterRunLevels(variant, mirror[..], scan, rank, s0, channel, level);
    }

    /** The recursion of channel_setter: the loop over the scanned mirror
        slots, calling the setter on every slave of `channel`. */
    method SetSlaves(channel: int, level: int, ghost rank: seq<nat>)
      requires Valid() && 1 <= channel <= Size(variant) && (level == 0 || level == 1)
      requires Ranked(mirror[..], scan, rank)
      modifies this`lastset, this`log, this`frames, setchan
      ensures Valid()
      ensures SetterState(setchan[..], lastset, frames)
              == SlavesRun(variant, mirror[..], scan, rank, SetterState(old(setchan[..]), old(lastset), old(frames)), channel, level, scan)
      decreases rank[channel - 1], 0
    {
      ghost var s0 := SetterState(setchan[..], lastset, frames);
      ghost var m := mirror[..];
      var j := 0;
      while j < scan
        invariant 0 <= j <= scan
        invariant Valid()
        invariant SetterState(setchan[..], lastset, frames) == SlavesRun(variant, m, scan, rank, s0, channel, level, j)
      {
        if mirror[j] == channel {
          RankedEdge(m, scan, rank, j);
          ChannelSetter(j + 1, level, rank);
        }
        j := j + 1;
      }
    }

    /** reset: every level 0 and every mirror slot empty, the clock and the
        per-show bookkeeping back to their start values. The two polls of the
        time file are parameters. No pin is written: the lights keep their
        last latched state until the next setter call. */
    method Reset(initPoll: real, prevPoll: real)
      requires Valid()
      modifies this`initTime, this`line, this`add, this`currTime, this`str, this`prevTime, setchan, mirror
      ensures Valid()
      ensures setchan[..] == seq(Size(variant), _ => 0)
      ensures mirror[..] == seq(Size(variant), _ => NoMaster(variant))
      ensures initTime == initPoll && prevTime == prevPoll
      ensures line == 0 && add == 0.0 && currTime == 0.0 && str == Start
    {
      var i := 0;
      while i < Size(variant)
        invariant 0 <= i <= Size(variant)
        invariant forall k :: 0 <= k < i ==> setchan[k] == 0 && mirror[k] == NoMaster(variant)
      {
        mirror[i] := NoMaster(variant);
        setchan[i] := 0;
        i := i + 1;
      }
      initTime := initPoll;
      line := 0;
      add := 0.0;
      currTime := 0.0;
      str := Start;
      prevTime := prevPoll;
    }

    /** The wait before a command: iterations of the clock, one per sample,
        until the command's offset is due or the samples run out. The result
        is how many samples were used. */
    method AwaitDue(startTime: real, samples: seq<Sample>) returns (k: nat)
      modifies this`currTime, this`prevTime
      ensures k <= |samples|
      ensures Clock(currTime, prevTime) == Run(Clock(old(currTime), old(prevTime)), samples[..k], str)
      ensures Due(startTime, currTime, add) || k == |samples|
      ensures forall j :: 0 <= j < k ==> !DueAfter(startTime, Clock(old(currTime), old(prevTime)), samples, str, add, j)
    {
      ghost var c0 := Clock(currTime, prevTime);
      k := 0;
      while startTime > currTime + Correction - add && k < |samples|
        invariant k <= |samples|
        invariant Clock(currTime, prevTime) == Run(c0, samples[..k], str)
        invariant forall j :: 0 <= j < k ==> !DueAfter(startTime, c0, samples, str, add, j)
        decreases |samples| - k
      {
        var g := samples[k].poll;
        if g + Correction2 != prevTime && g != Unknown {
          currTime := g + Correction2;
          prevTime := currTime;
        } else if prevTime > currTime - Staleness {
          currTime := currTime + samples[k].elapsed;
        } else if str != Restart && str != End {
          // Paused: the source blocks here until the poll changes; the next
          // sample is the next poll.
        } else {
          currTime := currTime + samples[k].elapsed;
        }
        RunAppend(c0, samples[..k], samples[k], str);
        assert samples[..k + 1] == samples[..k] + [samples[k]];
        k := k + 1;
      }
    }

    /** What one opcode does once its offset is due. The two time-file polls
        are used only by the reset that ends the class's night wait. */
    method Dispatch(cmd: Command, initPoll: real, prevPoll: real, ghost rank: seq<nat>)
      requires Valid() && WellFormed(variant, cmd)
      requires SetsChannel(cmd.op) ==> Ranked(mirror[..], scan, rank)
      modifies this`song, this`lastset, this`log, this`frames, this`restart, this`str, this`add, this`reports
      modifies this`initTime, this`line, this`currTime, this`prevTime, setchan, mirror
      ensures Valid()
      ensures SetsChannel(cmd.op) ==>
        && SetterState(setchan[..], lastset, frames)
           == SetterRun(variant, old(mirror[..]), scan, rank, SetterState(old(setchan[..]), old(lastset), old(frames)),
                        cmd.channel, Level(cmd.op))
        && setchan[..] == Assign(old(setchan[..]), Reached(old(mirror[..]), scan, rank, cmd.channel), Level(cmd.op))
      ensures !SetsChannel(cmd.op) ==> log == old(log) && lastset == old(lastset) && frames == old(frames)
      ensures ResetsOnNight(variant, cmd) ==>
        && setchan[..] == seq(Size(variant), _ => 0)
        && line == 0 && currTime == 0.0 && initTime == initPoll && prevTime == prevPoll
      ensures !SetsChannel(cmd.op) && !ResetsOnNight(variant, cmd) ==> setchan[..] == old(setchan[..])
      ensures mirror[..] == MirrorEdit(variant, old(mirror[..]), cmd)
      ensures add == if cmd.op == Add then old(add) + cmd.seconds else if ResetsOnNight(variant, cmd) then 0.0 else old(add)
      ensures restart == (old(restart) || cmd.op == Restart)
      ensures str == if cmd.op == Restart then StoredOp(variant, cmd.op) else old(str)
      ensures reports == if Known(variant, cmd.op) then old(reports) else old(reports) + [old(line)]
      ensures song == if cmd.op == Play then cmd.word else old(song)
      ensures !ResetsOnNight(variant, cmd) ==>
        line == old(line) && currTime == old(currTime) && prevTime == old(prevTime) && initTime == old(initTime)
      ensures filename == old(filename)
    {
      if cmd.op == Play {
        // The audio task is started here; the show resumes once the time
        // file reports a fresh value (AwaitFreshTimestamp).
        song := cmd.word;
      } else if SetsChannel(cmd.op) {
        // `on`/`fadein` set the level 1, `off`/`fadeout` the level 0.
        ChannelSetter(cmd.channel, Level(cmd.op), rank);
      } else if cmd.op == Restart {
        DispatchRestart(cmd, initPoll, prevPoll);
      } else {
        DispatchRest(cmd);
      }
    }

    /** The `restart` branch of the dispatch chain: mark the restart, run
        the class's night reset when the word is `night`, and hold the
        opcode the show loop will see. */
    method DispatchRestart(cmd: Command, initPoll: real, prevPoll: real)
      requires Valid() && cmd.op == Restart
      modifies this`restart, this`str, this`initTime, this`line, this`add, this`currTime, this`prevTime, setchan, mirror
      ensures Valid() && restart && str == StoredOp(variant, cmd.op)
      ensures ResetsOnNight(variant, cmd) ==>
        && setchan[..] == seq(Size(variant), _ => 0) && mirror[..] == seq(Size(variant), _ => NoMaster(variant))
        && line == 0 && add == 0.0 && currTime == 0.0 && initTime == initPoll && prevTime == prevPoll
      ensures !ResetsOnNight(variant, cmd) ==>
        && setchan[..] == old(setchan[..]) && mirror[..] == old(mirror[..])
        && line == old(line) && add == old(add) && currTime == old(currTime)
        && initTime == old(initTime) && prevTime == old(prevTime)
    {
      restart := true;
      if cmd.word == "night" && variant == Refactored {
        // The night wait (Night.AwaitNight) ends with a reset in the class.
        Reset(initPoll, prevPoll);
      }
      str := StoredOp(variant, cmd.op);
    }

    /** The rest of the dispatch chain: `add`, the two mirror-table edits,
        `end`, the class's `continue`, and the report of an unknown opcode. */
    method DispatchRest(cmd: Command)
      requires Valid() && WellFormed(variant, cmd)
      requires cmd.op != Play && !SetsChannel(cmd.op) && cmd.op != Restart
      modifies this`add, this`reports, mirror
      ensures Valid()
      ensures mirror[..] == MirrorEdit(variant, old(mirror[..]), cmd)
      ensures add == if cmd.op == Add then old(add) + cmd.seconds else old(add)
      ensures reports == if Known(variant, cmd.op) then old(reports) else old(reports) + [line]
    {
      if cmd.op == Add {
        add := add + cmd.seconds;
      } else if cmd.op == Mirror {
        mirror[cmd.channel - 1] := cmd.master;
      } else if cmd.op == Unmirror {
        mirror[cmd.channel - 1] := 0;
      } else if cmd.op == End {
      } else if cmd.op == Continue && variant == Refactored {
      } else {
        reports := reports + [line];
      }
    }

    /** executeCommand (and the body of the legacy command loop): count the
        line, hold the opcode, run the clock until the offset is due, then
        dispatch. If the samples run out first the command has not fired:
        the source would still be waiting. */
    method ExecuteCommand(cmd: Command, samples: seq<Sample>, initPoll: real, prevPoll: real, ghost rank: seq<nat>)
      returns (fired: bool, used: nat)
      requires Valid() && WellFormed(variant, cmd)
      requires SetsChannel(cmd.op) ==> Ranked(mirror[..], scan, rank)
      modifies this, setchan, mirror
      ensures Valid()
      ensures used <= |samples| && (fired || used == |samples|)
      ensures used == Wait(cmd.offset, Clock(old(currTime), old(prevTime)), samples, cmd.op, old(add))
      ensures fired == Due(cmd.offset, Run(Clock(old(currTime), old(prevTime)), samples[..used], cmd.op).curr, old(add))
      ensures !(fired && ResetsOnNight(variant, cmd)) ==>
        && Clock(currTime, prevTime) == Run(Clock(old(currTime), old(prevTime)), samples[..used], cmd.op)
        && initTime == old(initTime)
      ensures fired && ResetsOnNight(variant, cmd) ==> currTime == 0.0 && prevTime == prevPoll && initTime == initPoll
      ensures line == if fired && ResetsOnNight(variant, cmd) then 0 else old(line) + 1
      ensures str == if fired then StoredOp(variant, cmd.op) else cmd.op
      ensures restart == (old(restart) || (fired && cmd.op == Restart))
      ensures song == if fired && cmd.op == Play then cmd.word else old(song)
      ensures reports == if fired && !Known(variant, cmd.op) then old(reports) + [old(line) + 1] else old(reports)
      ensures fired && SetsChannel(cmd.op) ==>
        && SetterState(setchan[..], lastset, frames)
           == SetterRun(variant, old(mirror[..]), scan, rank, SetterState(old(setchan[..]), old(lastset), old(frames)),
                        cmd.channel, Level(cmd.op))
        && setchan[..] == Assign(old(setchan[..]), Reached(old(mirror[..]), scan, rank, cmd.channel), Level(cmd.op))
      ensures !(fired && SetsChannel(cmd.op)) ==> log == old(log) && lastset == old(lastset) && frames == old(frames)
      ensures fired && ResetsOnNight(variant, cmd) ==> setchan[..] == seq(Size(variant), _ => 0)
      ensures !(fired && (SetsChannel(cmd.op) || ResetsOnNight(variant, cmd))) ==> setchan[..] == old(setchan[..])
      ensures mirror[..] == if fired then MirrorEdit(variant, old(mirror[..]), cmd) else old(mirror[..])
      ensures add == if fired && cmd.op == Add then old(add) + cmd.seconds
                     else if fired && ResetsOnNight(variant, cmd) then 0.0 else old(add)
      ensures filename == old(filename)
    {
      line := line + 1;
      str := cmd.op;
      ghost var c0 := Clock(currTime, prevTime);
      used := AwaitDue(cmd.offset, samples);
      WaitUnique(cmd.offset, c0, samples, cmd.op, add, used);
      fired := Due(cmd.offset, currTime, add);
      if fired {
        Dispatch(cmd, initPoll, prevPoll, rank);
      }
    }

    /** The top of the class's show loop: reset, choose the show file, clear
        the restart mark. Returns what is left of the show argument. The pin
        log, the remembered bank, the song and the reports are outside its
        frame. */
    method BeginShow(show: string, typed: string, initPoll: real, prevPoll: real) returns (rest: string)
      requires Valid() && variant == Refactored
      modifies this`initTime, this`line, this`add, this`currTime, this`str, this`prevTime, this`filename, this`restart
      modifies setchan, mirror
      ensures Valid()
      ensures filename == SelectShow(old(restart), show, old(filename), typed).filename
      ensures rest == SelectShow(old(restart), show, old(filename), typed).show
      ensures !restart && str == Start && line == 0 && add == 0.0 && currTime == 0.0
      ensures initTime == initPoll && prevTime == prevPoll
      ensures setchan[..] == seq(Size(variant), _ => 0) && mirror[..] == seq(Size(variant), _ => NoMaster(variant))
    {
      Reset(initPoll, prevPoll);
      rest := show;
      if !restart && show == "" {
        filename := WithDefaultExtension(typed);
      } else if show != "" {
        filename := WithDefaultExtension(show);
        rest := "";
      }
      restart := false;
    }

    /** The top of the legacy outer loop: reset, choose the show file (the
        command-line argument, when given, every time), clear the restart
        mark. The pin log, the remembered bank, the song and the reports are
        outside its frame. */
    method BeginShowLegacy(arg: Option<string>, typed: string, initPoll: real, prevPoll: real)
      requires Valid() && variant == Legacy
      modifies this`initTime, this`line, this`add, this`currTime, this`str, this`prevTime, this`filename, this`restart
      modifies setchan, mirror
      ensures Valid()
      ensures filename == SelectShowLegacy(old(restart), arg, old(filename), typed).filename
      ensures !restart && str == Start && line == 0 && add == 0.0 && currTime == 0.0
      ensures initTime == initPoll && prevTime == prevPoll
      ensures setchan[..] == seq(Size(variant), _ => 0) && mirror[..] == seq(Size(variant), _ => NoMaster(variant))
    {
      Reset(initPoll, prevPoll);
      if !restart && arg == None {
        filename := WithDefaultExtension(typed);
      } else if arg.Some? {
        filename := WithDefaultExtension(arg.value);
      }
      restart := false;
    }

    /** Line n of a show as the show loop sees it: executeCommand's effect
        on every field, as `LineEffect` states it. The table is acyclic at an
        `on` or `off` because the script is acceptable from the table `m0`
        the show started with; `rank` is the rank of that table. */
    method ExecuteLine(script: seq<ScriptLine>, n: nat, ghost m0: seq<int>)
      returns (fired: bool, ghost rank: seq<nat>)
      requires Valid() && n < |script| && ShowAcceptable(variant, scan, m0, script)
      requires mirror[..] == MirrorAfter(variant, m0, script[..n])
      modifies this, setchan, mirror
      ensures Valid()
      ensures Snapshot() == LineEffect(variant, scan, old(Snapshot()), script[n])
      ensures fired == LineFires(old(Snapshot()), script[n])
      ensures str == if fired then StoredOp(variant, script[n].cmd.op) else script[n].cmd.op
      ensures restart == (old(restart) || (fired && script[n].cmd.op == Restart))
      ensures SetsChannel(script[n].cmd.op) ==> Ranked(old(mirror[..]), scan, rank) && 1 <= script[n].cmd.channel <= mirror.Length
      ensures fired && SetsChannel(script[n].cmd.op) ==>
        setchan[..] == Assign(old(setchan[..]), Reached(old(mirror[..]), scan, rank, script[n].cmd.channel), Level(script[n].cmd.op))
      ensures fired ==> mirror[..] == MirrorAfter(variant, m0, script[..n + 1])
      ensures filename == old(filename)
    {
      var next := script[n];
      ghost var before := Snapshot();
      rank := [];
      assert LineAcceptable(variant, scan, m0, script, n);
      if SetsChannel(next.cmd.op) {
        rank := SomeRank(mirror[..], scan);
      }
      var used;
      fired, used := ExecuteCommand(next.cmd, next.samples, next.initPoll, next.prevPoll, rank);
      MirrorAfterNext(variant, m0, script, n);
      CommandEffect(variant, scan, before, Snapshot(), next, used, fired, rank);
    }

    /** One pass of the show loop's body: line n runs through `ExecuteLine`;
        it fires as `LineFires` says, the register, restart mark and table
        move on with it, and the line after it is still one the loop can
        reach. */
    method ShowStep(script: seq<ScriptLine>, n: nat, ghost m0: seq<int>) returns (fired: bool)
      requires Valid() && n < |script| && ShowAcceptable(variant, scan, m0, script)
      requires mirror[..] == MirrorAfter(variant, m0, script[..n])
      requires RunsThrough(variant, script, n) && ShowRuns(variant, str)
      requires n > 0 ==> str == StoredOp(variant, script[n - 1].cmd.op)
      modifies this, setchan, mirror
      ensures Valid() && RunsThrough(variant, script, n + 1)
      ensures fired == LineFires(old(Snapshot()), script[n])
      ensures str == if fired then StoredOp(variant, script[n].cmd.op) else script[n].cmd.op
      ensures restart == (old(restart) || (fired && script[n].cmd.op == Restart))
      ensures fired ==> mirror[..] == MirrorAfter(variant, m0, script[..n + 1])
      ensures filename == old(filename)
    {
      assert RunsThrough(variant, script, n + 1);
      ghost var rank;
      fired, rank := ExecuteLine(script, n, m0);
    }

    /** The command loop itself: execute lines while the show runs and the
        script lasts, and stop early when a wait stalls. It leaves off at a
        line no further than `ShowLength`, with the register, the restart
        mark and the mirror table as the lines it ran left them. */
    method RunLines(script: seq<ScriptLine>) returns (n: nat, stalled: bool)
      requires Valid() && ShowRuns(variant, str) && ShowAcceptable(variant, scan, mirror[..], script)
      modifies this, setchan, mirror
      ensures Valid() && n <= |script| && RunsThrough(variant, script, n)
      ensures stalled ==> 0 < n && str == script[n - 1].cmd.op
      ensures !stalled ==> n == |script| || !ShowRuns(variant, str)
      ensures !stalled ==> str == if n == 0 then old(str) else StoredOp(variant, script[n - 1].cmd.op)
      ensures !stalled ==> mirror[..] == MirrorAfter(variant, old(mirror[..]), script[..n])
      ensures restart == (old(restart) || (!stalled && n > 0 && script[n - 1].cmd.op == Restart))
      ensures filename == old(filename)
    {
      ghost var m0 := mirror[..];
      n, stalled := 0, false;
      while n < |script| && ShowRuns(variant, str)
        invariant n <= |script| && Valid()
        invariant RunsThrough(variant, script, n)
        invariant str == if n == 0 then old(str) else StoredOp(variant, script[n - 1].cmd.op)
        invariant mirror[..] == MirrorAfter(variant, m0, script[..n])
        invariant restart == (old(restart) || (n > 0 && script[n - 1].cmd.op == Restart))
        invariant filename == old(filename)
      {
        var fired := ShowStep(script, n, m0);
        n := n + 1;
        if !fired {
          stalled := true;
          break;
        }
      }
    }

    /** A show's command loop: execute commands until one stops the show
        (`end`, `restart`, and in the class also `continue`), the script is
        exhausted, or a command's wait has run out of clock samples. Unless
        a wait stalls, exactly `ShowLength` commands run. */
    method RunShow(script: seq<ScriptLine>) returns (n: nat, stalled: bool)
      requires Valid() && ShowRuns(variant, str) && ShowAcceptable(variant, scan, mirror[..], script)
      modifies this, setchan, mirror
      ensures Valid()
      ensures !stalled ==> n == ShowLength(variant, script)
      ensures stalled ==> 0 < n <= ShowLength(variant, script) && str == script[n - 1].cmd.op
      ensures !stalled ==> str == if n == 0 then old(str) else StoredOp(variant, script[n - 1].cmd.op)
      ensures !stalled ==> mirror[..] == MirrorAfter(variant, old(mirror[..]), script[..n])
      ensures restart == (old(restart) || (!stalled && n > 0 && script[n - 1].cmd.op == Restart))
      ensures filename == old(filename)
    {
      n, stalled := RunLines(script);
      if stalled {
        RunsThroughLength(variant, script, n);
      } else {
        ShowEnds(variant, script, n);
      }
    }

    /** One pass of the class's outer loop: reset, choose the file, and run
        the show's command loop when the file could be opened. Unless a wait
        stalls, the restart mark and an `end` in the register both come from
        the command that stopped the show. */
    method RunSession(session: Session, show: string) returns (rest: string, n: nat, stalled: bool)
      requires Valid() && variant == Refactored && SessionAcceptable(variant, scan, session)
      modifies this, setchan, mirror
      ensures Valid()
      ensures filename == SelectShow(old(restart), show, old(filename), session.typed).filename
      ensures rest == SelectShow(old(restart), show, old(filename), session.typed).show
      ensures session.script.None? ==> n == 0 && !stalled && str == Start
      ensures session.script.Some? && !stalled ==> n == ShowLength(variant, session.script.value)
      ensures stalled ==> session.script.Some? && 0 < n <= ShowLength(variant, session.script.value) && !restart
      ensures !stalled ==> (restart <==> SessionStop(variant, session) == Some(Restart))
      ensures !stalled ==> (str == End <==> SessionStop(variant, session) == Some(End))
    {
      rest := BeginShow(show, session.typed, session.initPoll, session.prevPoll);
      n, stalled := 0, false;
      if session.script.Some? {
        n, stalled := RunShow(session.script.value);
      }
    }

    /** The outer loop of runDisplay: show after show while none has
        stopped on `end`. `stops` records the opcode that stopped each show
        and `files` the file it read. */
    method RunShows(show: string, sessions: seq<Session>)
      returns (shows: nat, stalled: bool, ghost files: seq<string>, ghost stops: seq<Option<Op>>)
      requires Valid() && variant == Refactored
      requires forall k {:trigger SessionAcceptable(variant, scan, sessions[k])} :: 0 <= k < |sessions| ==> SessionAcceptable(variant, scan, sessions[k])
      modifies this, setchan, mirror
      ensures Valid() && shows == |files| && ShowsSoFar(show, old(restart), old(filename), sessions, files, stops)
      ensures str == End || stalled || shows == |sessions|
      ensures stalled ==> shows > 0
      ensures shows == 0 ==> str == old(str)
      ensures shows > 0 && !stalled ==> (str == End <==> stops[shows - 1] == Some(End))
    {
      shows, stalled, files, stops := 0, false, [], [];
      var rest := show;
      while str != End && shows < |sessions| && !stalled
        invariant Valid() && shows == |files| && ShowsSoFar(show, old(restart), old(filename), sessions, files, stops)
        invariant stalled ==> shows > 0
        invariant shows == 0 ==> str == old(str) && restart == old(restart) && filename == old(filename) && rest == show
        invariant shows > 0 ==> rest == "" && filename == files[shows - 1]
        invariant shows > 0 && !stalled ==> (restart <==> stops[shows - 1] == Some(Restart))
        invariant shows > 0 && !stalled ==> (str == End <==> stops[shows - 1] == Some(End))
      {
        ShowsSoFarNext(show, old(restart), old(filename), sessions, files, stops, restart, filename, rest);
        var n;
        rest, n, stalled := RunSession(sessions[shows], rest);
        files := files + [filename];
        stops := stops + [SessionStop(variant, sessions[shows])];
        shows := shows + 1;
      }
    }

    /** runDisplay: show after show until one stops on `end`, then a final
        reset. A name given to runDisplay is used for the first show only;
        a later show reuses the previous file after `restart` and prompts
        otherwise. The sessions are what the outer loop reads from outside;
        the loop also stops when they run out or a command's wait runs out
        of clock samples. `files` records the file of every show. */
    method RunDisplay(show: string, sessions: seq<Session>, finalInit: real, finalPrev: real)
      returns (shows: nat, ended: bool, stalled: bool, ghost files: seq<string>)
      requires Valid() && variant == Refactored
      requires forall k {:trigger SessionAcceptable(variant, scan, sessions[k])} :: 0 <= k < |sessions| ==> SessionAcceptable(variant, scan, sessions[k])
      modifies this, setchan, mirror
      ensures Valid() && shows <= |sessions| && |files| == shows
      ensures ended || stalled || shows == |sessions|
      ensures stalled ==> !ended && shows > 0
      ensures ended <==> !stalled && ((shows == 0 && old(str) == End)
                                      || (shows > 0 && SessionStop(variant, sessions[shows - 1]) == Some(End)))
      ensures forall k :: 0 <= k < shows - 1 ==> SessionStop(variant, sessions[k]) != Some(End)
      ensures shows > 0 ==> files[0] == SelectShow(old(restart), show, old(filename), sessions[0].typed).filename
      ensures forall k {:trigger files[k]} :: 0 < k < shows ==>
        files[k] == if SessionStop(variant, sessions[k - 1]) == Some(Restart) then files[k - 1]
                    else WithDefaultExtension(sessions[k].typed)
      ensures ended ==> && setchan[..] == seq(Size(variant), _ => 0) && mirror[..] == seq(Size(variant), _ => NoMaster(variant))
                        && str == Start && line == 0 && add == 0.0 && currTime == 0.0
    {
      ghost var stops;
      shows, stalled, files, stops := RunShows(show, sessions);
      forall k {:trigger files[k]} | 0 < k < shows
        ensures files[k] == if stops[k - 1] == Some(Restart) then files[k - 1] else WithDefaultExtension(sessions[k].typed)
      {
        assert FileFollows(sessions, files, stops, k);
      }
      ended := false;
      if str == End && !stalled {
        Reset(finalInit, finalPrev);
        ended := true;
      }
    }

    /** One pass of the legacy outer loop: reset, choose the file, and run
        the show's command loop when the file could be opened. Unless a wait
        stalls, the restart mark comes from the command that stopped the
        show. */
    method RunSessionLegacy(session: Session, arg: Option<string>) returns (n: nat, stalled: bool)
      requires Valid() && variant == Legacy && SessionAcceptable(variant, scan, session)
      modifies this, setchan, mirror
      ensures Valid()
      ensures filename == SelectShowLegacy(old(restart), arg, old(filename), session.typed).filename
      ensures session.script.None? ==> n == 0 && !stalled && str == Start
      ensures session.script.Some? && !stalled ==> n == ShowLength(variant, session.script.value)
      ensures stalled ==> session.script.Some? && 0 < n <= ShowLength(variant, session.script.value) && !restart
      ensures !stalled ==> (restart <==> SessionStop(variant, session) == Some(Restart))
    {
      BeginShowLegacy(arg, session.typed, session.initPoll, session.prevPoll);
      n, stalled := 0, false;
      if session.script.Some? {
        n, stalled := RunShow(session.script.value);
      }
    }

    /** The legacy outer loop: a show stopping on `end` or `restart` is
        followed by the next one; the loop never leaves by itself, only when
        the sessions run out or a wait runs out of clock samples. A
        command-line argument names every show; without one, a show reuses
        the previous file after `restart` and prompts otherwise. */
    method RunLegacy(arg: Option<string>, sessions: seq<Session>)
      returns (shows: nat, stalled: bool, ghost files: seq<string>)
      requires Valid() && variant == Legacy
      requires forall k {:trigger SessionAcceptable(variant, scan, sessions[k])} :: 0 <= k < |sessions| ==> SessionAcceptable(variant, scan, sessions[k])
      modifies this, setchan, mirror
      ensures Valid()
      ensures shows == |sessions| || (stalled && 0 < shows <= |sessions|)
      ensures |files| == shows
      ensures shows > 0 ==> files[0] == SelectShowLegacy(old(restart), arg, old(filename), sessions[0].typed).filename
      ensures forall k {:trigger files[k]} :: 0 < k < shows ==>
        files[k] == if arg.Some? then WithDefaultExtension(arg.value)
                    else if SessionStop(variant, sessions[k - 1]) == Some(Restart) then files[k - 1]
                    else WithDefaultExtension(sessions[k].typed)
    {
      shows, stalled, files := 0, false, [];
      ghost var stops: seq<Option<Op>> := [];
      while shows < |sessions| && !stalled
        invariant Valid() && shows == |files| && LegacyShowsSoFar(arg, old(restart), old(filename), sessions, files, stops)
        invariant stalled ==> shows > 0
        invariant shows == 0 ==> restart == old(restart) && filename == old(filename)
        invariant shows > 0 ==> filename == files[shows - 1]
        invariant shows > 0 && !stalled ==> (restart <==> stops[shows - 1] == Some(Restart))
      {
        LegacyShowsSoFarNext(arg, old(restart), old(filename), sessions, files, stops, restart, filename);
        var n;
        n, stalled := RunSessionLegacy(sessions[shows], arg);
        files := files + [filename];
        stops := stops + [SessionStop(variant, sessions[shows])];
        shows := shows + 1;
      }
      forall k {:trigger files[k]} | 0 < k < shows
        ensures files[k] == if arg.Some? then WithDefaultExtension(arg.value)
                            else if stops[k - 1] == Some(Restart) then files[k - 1]
                            else WithDefaultExtension(sessions[k].typed)
      {
        assert LegacyFileFollows(arg, sessions, files, stops, k);
      }
    }
  }

  /** The script `0 on 1`, `0 mirror 2 1` on the class, each command
      dispatched as it falls due: installing the mirror after channel 1 went
      on leaves channel 2 off, because a mirror only takes part in later
      `on`/`off` commands. */
  method MirrorNotRetroactive() returns (levels: seq<int>, table: seq<int>)
    ensures |levels| == |table| == 64
    ensures table[1] == 1 && levels[0] == 1 && levels[1] == 0
  {
    var d := new LightDisplay(Refactored, 8);
    var fired, used;
    ghost var flat: seq<nat> := seq(64, _ => 0);
    NoSlavesOnlyTarget(d.mirror[..], d.scan, flat, 1);
    fired, used := d.ExecuteCommand(Command(0.0, On, 1, 0, 0.0, ""), [], 0.0, 0.0, flat);
    ghost var m0, levels0 := d.mirror[..], d.setchan[..];
    assert fired && levels0[0] == 1 && levels0[1] == 0;
    fired, used := d.ExecuteCommand(Command(0.0, Mirror, 2, 1, 0.0, ""), [], 0.0, 0.0, []);
    levels, table := d.setchan[..], d.mirror[..];
    assert fired && table == m0[1 := 1] && levels == levels0;
  }

  /** The script `0 mirror 2 1`, `0 on 1` on the class: the `on` for channel
      1 also turns on its slave, channel 2, and leaves the unmirrored channel
      3 off. */
  method MirrorFollowsMaster() returns (levels: seq<int>, table: seq<int>)
    ensures |levels| == |table| == 64
    ensures table[1] == 1 && table[2] == NoMaster(Refactored)
    ensures levels[0] == 1 && levels[1] == 1 && levels[2] == 0
  {
    var d := new LightDisplay(Refactored, 8);
    var fired, used;
    ghost var m0 := d.mirror[..];
    fired, used := d.ExecuteCommand(Command(0.0, Mirror, 2, 1, 0.0, ""), [], 0.0, 0.0, []);
    assert fired && d.mirror[..] == m0[1 := 1];
    assert d.currTime == 0.0 && d.add == 0.0;
    ghost var rank: seq<nat> := seq(64, k => if k == 0 then 1 else 0);
    RankedAfterEdit(m0, d.scan, rank, 1, 1);
    ghost var m := d.mirror[..];
    ReachedClosed(m, d.scan, rank, 1, 1, 1);
    UnmirroredNotReached(m, d.scan, rank, 1, 3);
    fired, used := d.ExecuteCommand(Command(0.0, On, 1, 0, 0.0, ""), [], 0.0, 0.0, rank);
    levels, table := d.setchan[..], d.mirror[..];
    assert fired && levels[0] == 1 && levels[1] == 1 && levels[2] == 0;
  }
}
