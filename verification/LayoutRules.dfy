/** What the layout engine guarantees of every input: the indent stack is 0, 4, 8, ..., Indents and
    Dedents balance, and one Eof ends the stream.
 */
module LayoutRules {
  import opened Layout
  import opened Wrappers

  function Levels(k: nat): seq<nat> {
    seq(k + 1, i => 4 * i)
  }

  /** How many blocks are open after the tokens, if none was closed that was not open. */
  ghost function Nesting(ts: seq<Tok>): Option<nat> {
    if ts == [] then Some(0)
    else
      var before := Nesting(ts[..|ts| - 1]);
      match ts[|ts| - 1]
      case Indent => if before.Some? then Some(before.value + 1) else None
      case Dedent => if before.Some? && before.value > 0 then Some(before.value - 1) else None
      case _ => before
  }

  ghost predicate NoEof(ts: seq<Tok>) {
    forall t :: t in ts ==> t != Eof
  }

  ghost predicate Valid(s: State) {
    && s.indents != [] && s.indents == Levels(|s.indents| - 1)
    && (s.pending.Some? ==> s.pending.value == Current(s))
    && (s.expected.Some? ==> s.expected.value == Current(s))
    && Nested(s)
  }

  /** The tokens so far: as many open blocks as the stack holds. */
  ghost predicate Nested(s: State) {
    s.indents != [] && Nesting(s.tokens) == Some(|s.indents| - 1) && NoEof(s.tokens)
  }

  ghost predicate ActiveHere(s: State) {
    s.active.Some? ==> s.indents != [] && s.active.value == Current(s)
  }

  /** A space is one column; a tab goes to the next column that is a multiple of four. */
  lemma WidthMeans(lead: seq<Blank>)
    ensures Width([]) == 0 && Width(lead + [Space]) == Width(lead) + 1
    ensures Width(lead + [Tab]) % 4 == 0
    ensures forall c: nat :: Width(lead) < c < Width(lead + [Tab]) ==> c % 4 != 0
    ensures Width(lead) < Width(lead + [Tab])
  {
    assert (lead + [Space])[..|lead|] == lead;
    assert (lead + [Tab])[..|lead|] == lead;
  }

  lemma NestingEmit(ts: seq<Tok>, t: Tok)
    ensures var before := Nesting(ts);
            Nesting(ts + [t]) == match t
                                 case Indent => if before.Some? then Some(before.value + 1) else None
                                 case Dedent =>
                                   if before.Some? && before.value > 0 then Some(before.value - 1) else None
                                 case _ => before
    ensures NoEof(ts) && t != Eof ==> NoEof(ts + [t])
  {
    assert (ts + [t])[..|ts|] == ts;
  }

  lemma {:induction false} PopValid(s: State, indent: nat)
    requires s.indents != [] && s.indents == Levels(|s.indents| - 1) && Nested(s)
    ensures var r := Pop(s, indent);
            && r.indents != [] && r.indents == Levels(|r.indents| - 1) && Nested(r) && Current(r) <= indent
            && r == s.(tokens := r.tokens, indents := r.indents)
            && (indent in s.indents ==> Current(r) == indent)
    decreases |s.indents|
  {
    hide Nesting;
    if Current(s) > indent {
      var t := Emit(s.(indents := s.indents[..|s.indents| - 1]), Dedent);
      NestingEmit(s.tokens, Dedent);
      assert t.indents == Levels(|t.indents| - 1);
      PopValid(t, indent);
      if indent in s.indents {
        assert s.indents == t.indents + [Current(s)];
      }
    } else if indent in s.indents {
      var i :| 0 <= i < |s.indents| && s.indents[i] == indent;
    }
  }

  lemma ApplyValid(s: State, indent: nat)
    requires Valid(s) && s.pending.None? && s.expected.None?
    ensures Valid(Apply(s, indent)) && Apply(s, indent).pending.None? && Apply(s, indent).expected.None?
  {
    hide Nesting;
    PopValid(if indent in s.indents then s else Fault(s), indent);
  }

  lemma PrepareValid(s: State, indent: nat, doc: bool)
    requires Valid(s) && ActiveHere(s)
    ensures var (r, continues) := Prepare(s, indent, doc);
            Valid(r) && r.pending.None? && (continues ==> ActiveHere(r))
  {
    hide Nesting;
    if !(s.pending.Some? && !doc && indent == s.pending.value + 4) {
      var t := if s.pending.Some? then Emit(s, Newline).(pending := None, active := None) else s;
      NestingEmit(s.tokens, Newline);
      if t.expected.None? {
        ApplyValid(t, indent);
      } else {
        var u := t.(expected := None);
        if indent > t.expected.value {
          NestingEmit(u.tokens, Indent);
          assert Levels(|u.indents| - 1) + [Current(u) + 4] == Levels(|u.indents|);
        } else {
          ApplyValid(Fault(u), indent);
        }
      }
    }
  }

  lemma {:induction false} PlainsNest(ts: seq<Tok>, lexemes: seq<Lexeme>)
    ensures Nesting(ts + Plains(lexemes)) == Nesting(ts) && (NoEof(ts) ==> NoEof(ts + Plains(lexemes)))
  {
    if lexemes == [] {
      assert ts + Plains(lexemes) == ts;
    } else {
      var rest, last := lexemes[..|lexemes| - 1], Plain(lexemes[|lexemes| - 1]);
      PlainsNest(ts, rest);
      assert ts + Plains(lexemes) == (ts + Plains(rest)) + [last];
      NestingEmit(ts + Plains(rest), last);
    }
  }

  lemma EndLineValid(s: State, indent: nat, doc: bool)
    requires Valid(s) && ActiveHere(s)
    ensures Valid(EndLine(s, indent, doc)) && ActiveHere(EndLine(s, indent, doc))
  {
    hide Nesting, Levels;
    NestingEmit(s.tokens, Newline);
  }

  lemma BottomZero(s: State)
    requires Valid(s)
    ensures s.indents[0] == 0
  {
  }

  /** Every physical line keeps the rules. */
  lemma StepValid(s: State, line: Line)
    requires Valid(s) && ActiveHere(s)
    ensures s.indents[0] == 0 && Valid(Step(s, line)) && ActiveHere(Step(s, line))
  {
    hide Nesting, Nested, BeginLine, Ungroup, LexLine, Levels, Width, EndLine;
    BottomZero(s);
    var indent := Width(line.lead);
    var t := if Tab in line.lead then Fault(s) else s;
    FaultValid(s);
    if !line.content.Nothing? {
      var doc := line.content.DocComment?;
      BeginValid(t, indent, doc);
      var u := BeginLine(t, indent, doc);
      var lexemes := if doc then [] else line.content.lexemes;
      LexKeeps(u, lexemes);
      var v := if doc then Emit(u, Doc) else LexLine(u, lexemes);
      TokensValid(u, doc, lexemes);
      UngroupKeeps(v);
      UngroupValid(v);
      EndLineValid(Ungroup(v), indent, doc);
    }
  }

  lemma FaultValid(s: State)
    requires Valid(s)
    ensures Valid(Fault(s))
  {
    hide Nesting, Levels;
  }

  lemma BeginValid(s: State, indent: nat, doc: bool)
    requires Valid(s) && ActiveHere(s) && s.indents[0] == 0
    ensures Valid(BeginLine(s, indent, doc)) && ActiveHere(BeginLine(s, indent, doc))
  {
    hide Nesting, Prepare, Levels;
    PrepareValid(s, indent, doc);
  }

  lemma TokensValid(s: State, doc: bool, lexemes: seq<Lexeme>)
    requires Valid(s) && ActiveHere(s)
    ensures var r := if doc then Emit(s, Doc) else LexLine(s, lexemes);
            Valid(r) && ActiveHere(r)
  {
    hide Nesting, LexLine, Levels;
    LexKeeps(s, lexemes);
    PlainsNest(s.tokens, lexemes);
    NestingEmit(s.tokens, Doc);
  }

  lemma UngroupValid(s: State)
    requires Valid(s) && ActiveHere(s)
    ensures Valid(Ungroup(s)) && ActiveHere(Ungroup(s))
  {
    hide Nesting, Ungroup, Levels;
    UngroupKeeps(s);
  }

  function Run(s: State, lines: seq<Line>): State
    requires s.indents != [] && s.indents[0] == 0
    ensures Run(s, lines).indents != [] && Run(s, lines).indents[0] == 0
  {
    if lines == [] then s
    else
      var r := Run(s, lines[..|lines| - 1]);
      StepBottom(r, lines[|lines| - 1]);
      Step(r, lines[|lines| - 1])
  }

  lemma StepBottom(s: State, line: Line)
    requires s.indents != [] && s.indents[0] == 0
    ensures Step(s, line).indents != [] && Step(s, line).indents[0] == 0
  {
    hide Prepare, Ungroup, LexLine, Width;
    var t := if Tab in line.lead then Fault(s) else s;
    if !line.content.Nothing? {
      var doc := line.content.DocComment?;
      var u := BeginLine(t, Width(line.lead), doc);
      LexKeeps(u, if doc then [] else line.content.lexemes);
      UngroupKeeps(if doc then Emit(u, Doc) else LexLine(u, line.content.lexemes));
    }
  }

  lemma {:induction false} RunValid(lines: seq<Line>)
    ensures Valid(Run(Initial(), lines)) && ActiveHere(Run(Initial(), lines))
  {
    if lines == [] {
      assert Levels(0) == [0];
    } else {
      RunValid(lines[..|lines| - 1]);
      StepValid(Run(Initial(), lines[..|lines| - 1]), lines[|lines| - 1]);
    }
  }

  /** `lex` as far as layout goes. */
  function Lex(lines: seq<Line>): State {
    Finish(Run(Initial(), lines))
  }

  /** Every token stream is balanced: no prefix closes more blocks than it opened, all are closed at
      the end, and the only Eof is the last token. */
  lemma StreamBalanced(lines: seq<Line>)
    ensures var ts := Lex(lines).tokens;
            && ts != [] && ts[|ts| - 1] == Eof && NoEof(ts[..|ts| - 1])
            && Nesting(ts) == Some(0) && forall i :: 0 <= i <= |ts| ==> Nesting(ts[..i]).Some?
  {
    hide Run;
    RunValid(lines);
    var s := Run(Initial(), lines);
    FinishBalanced(s);
    PrefixesNest(Finish(s).tokens);
  }

  lemma FinishBalanced(s: State)
    requires Valid(s)
    ensures var ts := Finish(s).tokens;
            ts != [] && ts[|ts| - 1] == Eof && NoEof(ts[..|ts| - 1]) && Nesting(ts) == Some(0)
  {
    hide Nesting;
    NestingEmit(s.tokens, Newline);
    var t := if s.pending.Some? || s.active.Some? then Emit(s, Newline) else s;
    var u := if t.expected.Some? then Fault(t) else t;
    var v := u.(pending := None, active := None, expected := None, delimiters := [],
                diagnostics := u.diagnostics + |u.delimiters|);
    PopValid(v, 0);
    var w := Pop(v, 0);
    NestingEmit(w.tokens, Eof);
    assert (w.tokens + [Eof])[..|w.tokens|] == w.tokens;
  }

  lemma {:induction false} PrefixesNest(ts: seq<Tok>)
    requires Nesting(ts).Some?
    ensures forall i :: 0 <= i <= |ts| ==> Nesting(ts[..i]).Some?
  {
    assert ts[..|ts|] == ts;
    if ts != [] {
      var init := ts[..|ts| - 1];
      PrefixesNest(init);
      forall i | 0 <= i < |ts| ensures Nesting(ts[..i]).Some? {
        assert init[..i] == ts[..i];
      }
    }
  }
}
