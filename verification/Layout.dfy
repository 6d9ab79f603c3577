/** The layout engine of the lexer (src/lexer.rs:96-403, 901-992) as functions on its state: physical
    lines become tokens bracketed by Newline, Indent and Dedent.
 */
module Layout {
  import opened Wrappers

  datatype Bracket = Parenthesis | Square | Brace

  /** A token inside a line. */
  datatype Lexeme = Word(id: nat) | Open(bracket: Bracket) | Close(bracket: Bracket) | Colon

  datatype Tok = Plain(lexeme: Lexeme) | Doc | Newline | Indent | Dedent | Eof

  datatype Blank = Space | Tab

  /** A physical line: what it is indented by, and nothing (or an ordinary comment), a documentation
      comment, or code. */
  datatype Line = Line(lead: seq<Blank>, content: Content)

  datatype Content = Nothing | DocComment | Code(lexemes: seq<Lexeme>)

  /** A block inside open delimiters. */
  datatype Group = Group(delimiterDepth: nat, baseIndent: nat)

  datatype State = State(
    tokens: seq<Tok>, diagnostics: nat, indents: seq<nat>, delimiters: seq<Bracket>,
    pending: Option<nat>, active: Option<nat>, expected: Option<nat>, grouped: seq<Group>)

  function Initial(): State {
    State([], 0, [0], [], None, None, None, [])
  }

  function Emit(s: State, t: Tok): State {
    s.(tokens := s.tokens + [t])
  }

  function Fault(s: State): State {
    s.(diagnostics := s.diagnostics + 1)
  }

  function Current(s: State): nat
    requires s.indents != []
  {
    s.indents[|s.indents| - 1]
  }

  // ------------------------------------------------------------------ indentation

  /** The width of a line's indentation: a tab moves to the next multiple of four. */
  function Width(lead: seq<Blank>): nat {
    if lead == [] then 0
    else
      var before := Width(lead[..|lead| - 1]);
      if lead[|lead| - 1].Space? then before + 1 else (before / 4 + 1) * 4
  }

  /** The loop of `apply_indentation`: blocks deeper than `indent` are closed. */
  function Pop(s: State, indent: nat): (r: State)
    requires s.indents != [] && s.indents[0] == 0
    ensures r.indents != [] && r.indents[0] == 0
    decreases |s.indents|
  {
    if Current(s) > indent then Pop(Emit(s.(indents := s.indents[..|s.indents| - 1]), Dedent), indent) else s
  }

  function Apply(s: State, indent: nat): (r: State)
    requires s.indents != [] && s.indents[0] == 0
    ensures r.indents != [] && r.indents[0] == 0
  {
    if indent == Current(s) then s
    else if indent > Current(s) then Fault(s)
    else Pop(if indent in s.indents then s else Fault(s), indent)
  }

  /** `prepare_logical_line`, and whether the line continues the active statement. */
  function Prepare(s: State, indent: nat, doc: bool): (r: (State, bool))
    requires s.indents != [] && s.indents[0] == 0
    ensures r.0.indents != [] && r.0.indents[0] == 0
  {
    if s.pending.Some? && !doc && indent == s.pending.value + 4 then (s.(pending := None), true)
    else
      var t := if s.pending.Some? then Emit(s, Newline).(pending := None, active := None) else s;
      if t.expected.None? then (Apply(t, indent), false)
      else
        var base := t.expected.value;
        var u := t.(expected := None);
        if indent == base + 4 then (Emit(u, Indent).(indents := u.indents + [base + 4]), false)
        else if indent > base then (Emit(Fault(u), Indent).(indents := u.indents + [base + 4]), false)
        else (Apply(Fault(u), indent), false)
  }

  // ------------------------------------------------------------------ the tokens of a line

  /** `handle_delimiter`. */
  function Delimit(s: State, l: Lexeme): State {
    match l
    case Open(b) => s.(delimiters := s.delimiters + [b])
    case Close(b) =>
      if s.delimiters == [] then Fault(s)
      else
        var t := s.(delimiters := s.delimiters[..|s.delimiters| - 1]);
        if s.delimiters[|s.delimiters| - 1] == b then t else Fault(t)
    case _ => s
  }

  function LexLine(s: State, lexemes: seq<Lexeme>): State {
    if lexemes == [] then s
    else
      var before := LexLine(s, lexemes[..|lexemes| - 1]);
      Emit(Delimit(before, lexemes[|lexemes| - 1]), Plain(lexemes[|lexemes| - 1]))
  }

  /** Blocks whose delimiters have closed and whose bodies have ended. */
  function Ungroup(s: State): State
    requires s.indents != []
    decreases |s.grouped|
  {
    if s.grouped == [] then s
    else
      var last := s.grouped[|s.grouped| - 1];
      if |s.delimiters| < last.delimiterDepth && Current(s) <= last.baseIndent then
        Ungroup(s.(grouped := s.grouped[..|s.grouped| - 1]))
      else s
  }

  /** What ends a line that emitted tokens: nothing inside delimiters, a block header, or a newline
      held back in case the next line continues the statement. */
  function EndLine(s: State, indent: nat, doc: bool): State
    requires s.indents != []
  {
    var header := s.tokens != [] && s.tokens[|s.tokens| - 1] == Plain(Colon);
    if s.delimiters != [] && s.grouped == [] && !header then s
    else if doc then Emit(s, Newline).(active := None)
    else if header then
      var base := if s.active.Some? then s.active.value else indent;
      var t := if s.delimiters == [] then s else s.(grouped := s.grouped + [Group(|s.delimiters|, base)]);
      Emit(t, Newline).(expected := t.active, active := None, pending := None)
    else s.(pending := Some(if s.active.Some? then s.active.value else Current(s)))
  }

  /** The start of a line with content: a new statement, or more of the active one. */
  function BeginLine(s: State, indent: nat, doc: bool): (r: State)
    requires s.indents != [] && s.indents[0] == 0
    ensures r.indents != [] && r.indents[0] == 0
  {
    if s.delimiters == [] || s.grouped != [] || s.expected.Some? then
      var (t, continues) := Prepare(s, indent, doc);
      if continues then t else t.(active := Some(Current(t)))
    else if s.active.None? then s.(active := Some(Current(s)))
    else s
  }

  /** `lex_physical_line`. */
  function Step(s: State, line: Line): State
    requires s.indents != [] && s.indents[0] == 0
  {
    var indent := Width(line.lead);
    var t := if Tab in line.lead then Fault(s) else s;
    if line.content.Nothing? then t
    else
      var doc := line.content.DocComment?;
      var u := BeginLine(t, indent, doc);
      var v := if doc then Emit(u, Doc) else LexLine(u, line.content.lexemes);
      LexKeeps(u, if doc then [] else line.content.lexemes);
      var w := Ungroup(v);
      UngroupKeeps(v);
      if |w.tokens| > |u.tokens| then EndLine(w, indent, doc) else w
  }

  lemma {:induction false} LexKeeps(s: State, lexemes: seq<Lexeme>)
    ensures var r := LexLine(s, lexemes);
            r == s.(tokens := r.tokens, diagnostics := r.diagnostics, delimiters := r.delimiters)
    ensures LexLine(s, lexemes).tokens == s.tokens + Plains(lexemes)
  {
    if lexemes != [] {
      LexKeeps(s, lexemes[..|lexemes| - 1]);
    }
  }

  function Plains(lexemes: seq<Lexeme>): seq<Tok> {
    if lexemes == [] then [] else Plains(lexemes[..|lexemes| - 1]) + [Plain(lexemes[|lexemes| - 1])]
  }

  lemma {:induction false} UngroupKeeps(s: State)
    requires s.indents != []
    ensures Ungroup(s) == s.(grouped := Ungroup(s).grouped)
    decreases |s.grouped|
  {
    if s.grouped != [] {
      var last := s.grouped[|s.grouped| - 1];
      if |s.delimiters| < last.delimiterDepth && Current(s) <= last.baseIndent {
        UngroupKeeps(s.(grouped := s.grouped[..|s.grouped| - 1]));
      }
    }
  }

  /** `finish`. */
  function Finish(s: State): State
    requires s.indents != [] && s.indents[0] == 0
  {
    var t := if s.pending.Some? || s.active.Some? then Emit(s, Newline) else s;
    var u := if t.expected.Some? then Fault(t) else t;
    var v := u.(pending := None, active := None, expected := None, delimiters := [],
                diagnostics := u.diagnostics + |u.delimiters|);
    Emit(Pop(v, 0), Eof)
  }
}
