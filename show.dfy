/** Show-level decisions shared by the two implementations of the
    interpreter: the show file name, the opcodes, when the command loop of a
    show stops and which show runs next. */
module Show {

  /** The legacy procedural interpreter (one `main`) or the class-based one. */
  datatype Variant = Legacy | Refactored

  datatype Option<T> = None | Some(value: T)

  /** `.show` is appended when the name has no `.` anywhere. */
  function WithDefaultExtension(name: string): (r: string)
    ensures '.' in r
    ensures name <= r
    ensures r == name <==> '.' in name
  {
    if '.' in name then name else name + ".show"
  }

  lemma DefaultExtensionIdempotent(name: string)
    ensures WithDefaultExtension(WithDefaultExtension(name)) == WithDefaultExtension(name)
    ensures '.' !in name ==> WithDefaultExtension(name)[|name|..] == ".show"
  {
  }

  /** The opcode of a show file line, read into the command buffer as a
      token; a token that is no opcode is kept as it was read. */
  datatype Op =
    | Play | On | FadeIn | Off | FadeOut | Restart | Add | Mirror | Unmirror | End | Continue
    | Other(token: string)

  /** The token that names each opcode. */
  function Spelling(op: Op): string
  {
    match op
    case Play => "play"
    case On => "on"
    case FadeIn => "fade_in"
    case Off => "off"
    case FadeOut => "fade_out"
    case Restart => "restart"
    case Add => "add"
    case Mirror => "mirror"
    case Unmirror => "unmirror"
    case End => "end"
    case Continue => "continue"
    case Other(t) => t
  }

  predicate IsKeyword(token: string)
  {
    token in {"play", "on", "fade_in", "off", "fade_out", "restart", "add", "mirror", "unmirror", "end", "continue"}
  }

  /** An `Other` opcode never carries a keyword: `Parse` produces only these. */
  predicate Canonical(op: Op)
  {
    op.Other? ==> !IsKeyword(op.token)
  }

  /** The comparisons of the dispatch chain, as one classification. */
  function Parse(token: string): (op: Op)
    ensures Spelling(op) == token
    ensures Canonical(op)
    ensures op.Other? <==> !IsKeyword(token)
  {
    if token == "play" then Play
    else if token == "on" then On
    else if token == "fade_in" then FadeIn
    else if token == "off" then Off
    else if token == "fade_out" then FadeOut
    else if token == "restart" then Restart
    else if token == "add" then Add
    else if token == "mirror" then Mirror
    else if token == "unmirror" then Unmirror
    else if token == "end" then End
    else if token == "continue" then Continue
    else Other(token)
  }

  /** Parsing the spelling of a canonical opcode gives it back. */
  lemma ParseSpelling(op: Op)
    requires Canonical(op)
    ensures Parse(Spelling(op)) == op
  {
  }

  /** The value "start" the command buffer holds before a show's first line. */
  const Start: Op := Other("start")

  /** `fade_in` and `fade_out` are kept as aliases of `on` and `off`. */
  predicate IsOn(op: Op) { op == On || op == FadeIn }
  predicate IsOff(op: Op) { op == Off || op == FadeOut }

  /** The opcodes a variant dispatches; `continue` exists only in the
      class-based interpreter. */
  predicate Known(v: Variant, op: Op)
  {
    !op.Other? && (op == Continue ==> v == Refactored)
  }

  /** What the command register holds after dispatching `op`: the legacy
      interpreter overwrites `restart` with `end` to leave its loop. */
  function StoredOp(v: Variant, op: Op): Op
  {
    if op == Restart && v == Legacy then End else op
  }

  /** The condition of a show's command loop. */
  predicate ShowRuns(v: Variant, str: Op)
  {
    match v
    case Legacy => str != End
    case Refactored => str != End && str != Restart && str != Continue
  }

  /** The condition of the outer loop over shows: the legacy one never ends. */
  predicate OuterRuns(v: Variant, str: Op)
  {
    v == Legacy || str != End
  }

  /** A show stops right after `end` or `restart` in both variants, and after
      `continue` in the class-based one; any other command keeps it going. */
  lemma TerminalCommands(v: Variant, op: Op)
    ensures !ShowRuns(v, StoredOp(v, op)) <==>
      (op == End || op == Restart || (v == Refactored && op == Continue))
    ensures v == Refactored ==> (OuterRuns(v, StoredOp(v, op)) <==> op != End)
    ensures v == Legacy ==> OuterRuns(v, StoredOp(v, op))
  {
  }

  /** The file chosen for the next show, the show argument left for later,
      and whether the operator was prompted. */
  datatype Selection = Selection(filename: string, show: string, prompted: bool)

  /** Class-based selection: prompt unless restarting or a show name is
      given; a given name is used once and then cleared; after `restart`
      with no given name the previous file is reused. */
  function SelectShow(restart: bool, show: string, filename: string, typed: string): (s: Selection)
    ensures s.show == ""
    ensures s.prompted ==> !restart
    ensures '.' in s.filename || s.filename == filename
  {
    if !restart && show == "" then Selection(WithDefaultExtension(typed), show, true)
    else if show != "" then Selection(WithDefaultExtension(show), "", false)
    else Selection(filename, show, false)
  }

  /** Legacy selection: a command-line argument, when present, names every
      show; otherwise prompt unless restarting. */
  function SelectShowLegacy(restart: bool, arg: Option<string>, filename: string, typed: string): (s: Selection)
    ensures s.show == ""
    ensures s.prompted ==> !restart && arg == None
    ensures '.' in s.filename || s.filename == filename
  {
    if !restart && arg == None then Selection(WithDefaultExtension(typed), "", true)
    else if arg.Some? then Selection(WithDefaultExtension(arg.value), "", false)
    else Selection(filename, "", false)
  }

  /** Across two shows of the class-based interpreter: a name given on the
      command line is used for the first show only; the next one reuses that
      file after `restart` and prompts after `continue`. */
  lemma GivenNameUsedOnce(show: string, filename: string, typed1: string, typed2: string, restartAfter: bool)
    requires show != ""
    ensures var first := SelectShow(false, show, filename, typed1);
      var second := SelectShow(restartAfter, first.show, first.filename, typed2);
      && first.filename == WithDefaultExtension(show)
      && (restartAfter ==> second.filename == first.filename && !second.prompted)
      && (!restartAfter ==> second.prompted && second.filename == WithDefaultExtension(typed2))
  {
  }

  /** With no name given, the two interpreters choose alike: prompt unless
      restarting, and reuse the previous file after `restart`. */
  lemma NamelessSelection(restart: bool, filename: string, typed: string)
    ensures SelectShow(restart, "", filename, typed) == SelectShowLegacy(restart, None, filename, typed)
    ensures var s := SelectShow(restart, "", filename, typed);
      && (s.prompted <==> !restart)
      && s.filename == (if restart then filename else WithDefaultExtension(typed))
  {
  }

  /** Across two shows of the legacy interpreter: a command-line argument
      names both without a prompt; without one, the second show reuses the
      first one's file after `restart` and prompts otherwise. */
  lemma ArgumentNamesEveryShow(arg: Option<string>, filename: string, typed1: string, typed2: string,
                               restart1: bool, restartAfter: bool)
    ensures var first := SelectShowLegacy(restart1, arg, filename, typed1);
      var second := SelectShowLegacy(restartAfter, arg, first.filename, typed2);
      && (arg.Some? ==> && first.filename == second.filename == WithDefaultExtension(arg.value)
                        && !first.prompted && !second.prompted)
      && (arg.None? && restartAfter ==> second.filename == first.filename && !second.prompted)
      && (arg.None? && !restartAfter ==> second.prompted && second.filename == WithDefaultExtension(typed2))
  {
  }
}
