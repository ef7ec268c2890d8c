/** The tokenizer object over the text states, and the text it reads over successive calls. */
module Tokenizing {
  import opened Options
  import opened TextTokenizer
  import opened TextLexing
  import opened TextEscapes
  import Utf8
  import InputIterator

  /** A tag at `p` ends a text that begins at `from`: in a script, unless it is doubly escaped. */
  predicate Closes(cx: Context, state: LexState, from: nat, p: nat)
    requires from <= p
  {
    TagAt(cx, p) && (Raw(state) || ModeAt(cx.input, from, p).mode != Doubled)
  }

  /** The first closing tag at or after `p`, or the end of the input. */
  function FirstClosing(cx: Context, state: LexState, from: nat, p: nat): (q: nat)
    requires from <= p <= |cx.input|
    ensures p <= q <= |cx.input| && (q < |cx.input| ==> Closes(cx, state, from, q))
    ensures forall i: nat :: p <= i < q ==> !Closes(cx, state, from, i)
    decreases |cx.input| - p
  {
    if p == |cx.input| || Closes(cx, state, from, p) then p else FirstClosing(cx, state, from, p + 1)
  }

  /** The outcome of a call that starts at `start`, in a text that began at `from`. */
  ghost predicate Delivers(cx: Context, state: LexState, from: nat, start: nat, token: Token, lx: Lexer)
    requires from <= start
  {
    match token
    case Char(c) =>
      && start < |cx.input| && c == Shown(cx.input[start])
      && lx.cursor == start + 1 && Between(cx, lx) && Trace(cx, lx, from)
      && (Raw(state) <==> Raw(lx.state))
      && !Closes(cx, state, from, start)
    case Eof => start == |cx.input|
    case EndTag(t) =>
      && Closes(cx, state, from, start) && cx.lastStartTag == Some(t) && PastName(cx, start, true, lx.cursor)
      && lx.state == Data
    case LeftText =>
      Closes(cx, state, from, start) && PastName(cx, start, false, lx.cursor) && GoesOnIn(cx, start, lx.state)
  }

  /** Inside a call that began at `start` in `state`. */
  ghost predicate Going(cx: Context, lx: Lexer, state: LexState, from: nat, start: nat) {
    && Mid(cx, lx, start) && from <= start && Trace(cx, lx, from)
    && (InText(lx.state) ==> (Raw(state) <==> Raw(lx.state)))
  }

  /** What the state of a call says of the mode at its start. */
  lemma ModeHere(cx: Context, lx: Lexer, state: LexState, from: nat, start: nat)
    requires Going(cx, lx, state, from, start) && InText(lx.state) && !Raw(lx.state)
    ensures ModeAt(cx.input, from, start).mode == Doubled <==> Double(lx.state)
  {
    hide ModeAt, Dashes, Naming, Mirrors;
  }

  /** A character sent from the buffer is the one at the cursor, and no tag starts there, since only
      the first of the buffer is a `<`. */
  lemma FlushDelivers(cx: Context, lx: Lexer, from: nat)
    requires Between(cx, lx) && Trace(cx, lx, from) && Flushing(lx) && from <= lx.cursor
    ensures var r := EmitFromTemp(cx, lx);
      r.result.Done? && Delivers(cx, lx.state, from, lx.cursor, r.result.token, r.lx)
  {
    hide TagAt, Says, Resting, Raw, EmitFromTemp, ModeAt;
    Flushed(cx, lx);
    NoTagHere(cx, lx.cursor);
  }

  lemma Flushed(cx: Context, lx: Lexer)
    requires Between(cx, lx) && Flushing(lx)
    ensures lx.cursor < |cx.input| && cx.input[lx.cursor] > 0 && cx.input[lx.cursor] != LT
    ensures lx.temp[lx.emit.value] == cx.input[lx.cursor]
    ensures EmitFromTemp(cx, lx)
         == Step(lx.(cursor := lx.cursor + 1, emit := Some(lx.emit.value + 1)), Done(Char(cx.input[lx.cursor])))
  {
    hide Resting;
    assert lx.temp[lx.emit.value] == cx.input[lx.cursor];
  }

  /** With nothing to flush, the call starts at the cursor. */
  lemma StartsGoing(cx: Context, lx: Lexer, from: nat)
    requires Between(cx, lx) && Trace(cx, lx, from) && from <= lx.cursor && !Flushing(lx)
    ensures Going(cx, lx.(emit := None), lx.state, from, lx.cursor)
  {
    hide Says, Mirrors;
    assert Front(lx) == lx.cursor;
  }

  /** What a pass accounts for is what the call delivers. */
  lemma TurnDelivers(cx: Context, lx: Lexer, state: LexState, from: nat, start: nat)
    requires CodePoints(cx) && Going(cx, lx, state, from, start)
    ensures InText(lx.state) || lx.state == Data
    ensures var r := Turn(cx, lx);
      match r.result
      case Failed => false
      case NextChar =>
        if r.lx.state == BeforeAttrName || r.lx.state == SelfClosing
        then Closes(cx, state, from, start) && PastName(cx, start, false, r.lx.cursor) && GoesOnIn(cx, start, r.lx.state)
        else Going(cx, r.lx, state, from, start) && Remaining(cx, r.lx) < Remaining(cx, lx)
      case Done(token) => Delivers(cx, state, from, start, token, r.lx)
  {
    hide TagAt, Trace, Between, Turn, Speculating, ModeAt;
    TurnAccounts(cx, lx, start);
    TurnTraces(cx, lx, start, from);
    if InText(lx.state) && !Raw(lx.state) { ModeHere(cx, lx, state, from, start); }
    if start == |cx.input| { NoTagHere(cx, start); }
  }

  /** What the assertions in the state functions expect of the buffers. */
  predicate Buffered(lx: Lexer) {
    && (Less(lx.state) ==> lx.temp == [LT]) && (EndOpen(lx.state) ==> lx.temp == [LT, SLASH])
    && (EndName(lx.state) ==> |lx.temp| >= 2) && (lx.state == EscLt ==> lx.scriptBuffer == [])
  }

  /** Where a character comes from the buffer, it is the one at the iterator. */
  predicate MarkShown(cx: Context, lx: Lexer) {
    lx.temp != [] && lx.mark < |cx.input| && lx.temp[0] == cx.input[lx.mark]
  }

  lemma GoingBuffered(cx: Context, lx: Lexer, state: LexState, from: nat, start: nat)
    requires Going(cx, lx, state, from, start)
    ensures lx.emit == None && Buffered(lx) && (!Resting(lx.state) && lx.state != Data ==> MarkShown(cx, lx))
  {
    hide Trace, Raw, LowerAll;
    if !Resting(lx.state) && lx.state != Data { assert lx.temp[0] == cx.input[lx.mark]; }
  }

  /** A decoded input holds code points only, as every text state needs. */
  lemma DecodedCodePoints(bytes: seq<Utf8.Byte>, tagEnum: seq<int> -> int, lastStartTag: Option<int>)
    ensures CodePoints(Context(InputIterator.InputStream(bytes), tagEnum, lastStartTag))
  {
    InputIterator.StandsAtStart(bytes);
    InputIterator.StreamNonNegative(bytes, 0);
    var s := InputIterator.InputStream(bytes);
    assert s[0..] == s;
    assert forall i :: 0 <= i < |s| ==> s[i] in InputIterator.Delivered(bytes, 0);
  }

  /** The tokenizer object: it moves a byte iterator, and its fields and the iterator's indices are the
      lexer of the specification. */
  class Tokenizer {
    const input: InputIterator.Utf8Iterator
    const tagEnum: seq<int> -> int
    const lastStartTag: Option<int>
    var state: LexState
    var reconsume: bool
    var temp: seq<int>
    var emit: Option<nat>
    var scriptBuffer: seq<int>
    var tagBuffer: seq<int>

    /** The code points of the bytes. */
    ghost function Cx(): Context { Context(InputIterator.InputStream(input.bytes), tagEnum, lastStartTag) }

    ghost function Lx(): Lexer
      reads this, input
    {
      Lexer(state, reconsume, input.index, input.markIndex, temp, emit, scriptBuffer, tagBuffer)
    }

    ghost predicate Valid()
      reads input
    {
      input.Valid()
    }

    constructor (bytes: seq<Utf8.Byte>, tabStop: nat, tagEnum: seq<int> -> int, lastStartTag: Option<int>, state: LexState)
      requires tabStop > 0
      ensures Valid() && fresh(input)
      ensures Cx() == Context(InputIterator.InputStream(bytes), tagEnum, lastStartTag)
      ensures Lx() == Lexer(state, false, 0, 0, [], None, [], [])
    {
      input := new InputIterator.Utf8Iterator(bytes, tabStop);
      this.tagEnum, this.lastStartTag, this.state := tagEnum, lastStartTag, state;
      reconsume, temp, emit, scriptBuffer, tagBuffer := false, [], None, [], [];
    }

    // -------------------------------------------------------------------------------------
    // The input

    method NextInput()
      requires Valid()
      modifies input
      ensures Valid() && Lx() == Advance(Cx(), old(Lx()))
    {
      input.Next();
    }

    /** `clear_temporary_buffer`, which is not called while the buffer is being sent. */
    method ClearTemporaryBuffer()
      requires Valid() && emit == None
      modifies this`temp, this`scriptBuffer, input
      ensures Valid() && Lx() == ClearTemp(old(Lx()))
    {
      input.SetMark();
      temp := [];
      scriptBuffer := [];
    }

    /** `append_char_to_temporary_buffer`. */
    method AppendToTemporaryBuffer(c: int)
      modifies this`temp
      ensures Lx() == Append(old(Lx()), c)
    {
      temp := temp + [c];
    }

    /** The script data buffer takes lower-case letters. */
    method AppendToScriptBuffer(c: int)
      modifies this`scriptBuffer
      ensures Lx() == AppendScript(old(Lx()), c)
    {
      scriptBuffer := scriptBuffer + [EnsureLowercase(c)];
    }

    // -------------------------------------------------------------------------------------
    // Emitting

    /** `emit_char` and `finish_token`. */
    method EmitChar(c: int) returns (r: Result)
      requires Valid()
      modifies input
      ensures Valid() && Step(Lx(), r) == Emit(Cx(), old(Lx()), c)
    {
      if !reconsume {
        NextInput();
      }
      r := Done(if c == -1 then Eof else Char(c));
    }

    method EmitCurrentChar() returns (r: Result)
      requires Valid()
      modifies input
      ensures Valid() && Step(Lx(), r) == EmitCurrent(Cx(), old(Lx()))
    {
      assert input.current == Current(Cx(), Lx());
      r := EmitChar(input.current);
    }

    /** `maybe_emit_from_temporary_buffer`, which asserts that the character it sends is the one at the
        iterator. */
    method MaybeEmitFromTemporaryBuffer() returns (token: Option<Token>)
      requires Valid() && (Flushing(Lx()) ==> temp[emit.value] == input.current)
      modifies this`emit, this`reconsume, input
      ensures Valid() && (token.Some? <==> Flushing(old(Lx())))
      ensures token.Some? ==> Step(Lx(), Done(token.value)) == EmitFromTemp(Cx(), old(Lx()))
      ensures token.None? ==> Lx() == old(Lx()).(emit := None)
    {
      hide InputIterator.Sound, InputIterator.StandsAt, InputIterator.Locates, InputIterator.InputStream;
      if emit.None? || emit.value >= |temp| {
        emit := None;
        return None;
      }
      var saved := reconsume;
      reconsume := false;
      var r := EmitChar(temp[emit.value]);
      emit := Some(emit.value + 1);
      reconsume := saved;
      token := Some(r.token);
    }

    /** `emit_temporary_buffer`. */
    method EmitTemporaryBuffer() returns (r: Result)
      requires Valid() && MarkShown(Cx(), Lx())
      modifies this`emit, this`reconsume, input
      ensures Valid() && Step(Lx(), r) == EmitTemp(Cx(), old(Lx()))
    {
      input.Reset();
      emit := Some(0);
      var token := MaybeEmitFromTemporaryBuffer();
      r := if token.Some? then Done(token.value) else Failed;
    }

    // -------------------------------------------------------------------------------------
    // The state functions

    /** Enter a less-than sign state. */
    method OpenTagIn(lt: LexState) returns (r: Result)
      requires Valid() && emit == None
      modifies this`state, this`temp, this`scriptBuffer, input
      ensures Valid() && Step(Lx(), r) == OpenTag(old(Lx()), lt)
    {
      state := lt;
      ClearTemporaryBuffer();
      AppendToTemporaryBuffer(LT);
      r := NextChar;
    }

    method HandlePlainText(c: int, lt: LexState) returns (r: Result)
      requires Valid() && emit == None && c == input.current
      modifies this, input
      ensures Valid() && Step(Lx(), r) == PlainText(Cx(), old(Lx()), c, lt)
    {
      hide Emit, EmitCurrent, EmitTemp, OpenTag, Current, InputIterator.Utf8Iterator.Valid;
      if c == LT {
        r := OpenTagIn(lt);
      } else if c == 0 {
        r := EmitChar(REPLACEMENT);
      } else {
        r := EmitCurrentChar();
      }
    }

    method HandleEndTagOpen(c: int, name: LexState, text: LexState) returns (r: Result)
      requires Valid() && c == input.current && temp == [LT, SLASH] && MarkShown(Cx(), Lx())
      modifies this, input
      ensures Valid() && Step(Lx(), r) == EndTagOpen(Cx(), old(Lx()), c, name, text)
    {
      hide Emit, EmitCurrent, EmitTemp, OpenTag, Current, InputIterator.Utf8Iterator.Valid;
      if IsAlpha(c) {
        state := name;
        tagBuffer := [EnsureLowercase(c)];
        AppendToTemporaryBuffer(c);
        r := NextChar;
      } else {
        state := text;
        r := EmitTemporaryBuffer();
      }
    }

    method HandleEndTagName(c: int, text: LexState) returns (r: Result)
      requires Valid() && c == input.current && |temp| >= 2 && MarkShown(Cx(), Lx())
      modifies this, input
      ensures Valid() && Step(Lx(), r) == EndTagName(Cx(), old(Lx()), c, text)
    {
      hide IsAlpha, EnsureLowercase, Emit, EmitCurrent, EmitTemp, OpenTag, Current, InputIterator.Utf8Iterator.Valid;
      assert !IsAlpha(c) && !(Appropriate(Cx(), tagBuffer) && EndsName(c)) ==>
          EndTagName(Cx(), Lx(), c, text) == EmitTemp(Cx(), Go(Lx(), text));
      if IsAlpha(c) {
        tagBuffer := tagBuffer + [EnsureLowercase(c)];
        AppendToTemporaryBuffer(c);
        return NextChar;
      }
      if lastStartTag.Some? && lastStartTag.value == tagEnum(tagBuffer) {
        if IsSpace(c) {
          state := BeforeAttrName;
          return NextChar;
        } else if c == SLASH {
          state := SelfClosing;
          return NextChar;
        } else if c == GT {
          state := Data;
          NextInput();
          return Done(EndTag(tagEnum(tagBuffer)));
        }
      }
      state := text;
      r := EmitTemporaryBuffer();
    }

    method HandleRawtextLt(c: int) returns (r: Result)
      requires Valid() && c == input.current && temp == [LT] && MarkShown(Cx(), Lx())
      modifies this, input
      ensures Valid() && Step(Lx(), r) == RawtextLtState(Cx(), old(Lx()), c)
    {
      hide Emit, EmitCurrent, EmitTemp, OpenTag, Current, InputIterator.Utf8Iterator.Valid;
      if c == SLASH {
        state := RawtextEndTagOpen;
        AppendToTemporaryBuffer(SLASH);
        r := NextChar;
      } else {
        state := Rawtext;
        reconsume := true;
        r := EmitTemporaryBuffer();
      }
    }

    method HandleScriptLt(c: int) returns (r: Result)
      requires Valid() && c == input.current && temp == [LT] && MarkShown(Cx(), Lx())
      modifies this, input
      ensures Valid() && Step(Lx(), r) == ScriptLtState(Cx(), old(Lx()), c)
    {
      hide Emit, EmitCurrent, EmitTemp, OpenTag, Current, InputIterator.Utf8Iterator.Valid;
      if c == SLASH {
        state := ScriptEndTagOpen;
        AppendToTemporaryBuffer(SLASH);
        r := NextChar;
      } else if c == BANG {
        state := EscStart;
        AppendToTemporaryBuffer(BANG);
        r := EmitTemporaryBuffer();
      } else {
        state := Script;
        reconsume := true;
        r := EmitTemporaryBuffer();
      }
    }

    method HandleDash(c: int, dash: LexState) returns (r: Result)
      requires Valid() && c == input.current
      modifies this, input
      ensures Valid() && Step(Lx(), r) == DashOr(Cx(), old(Lx()), c, dash)
    {
      hide Emit, EmitCurrent, EmitTemp, OpenTag, Current, InputIterator.Utf8Iterator.Valid;
      if c == DASH {
        state := dash;
        r := EmitCurrentChar();
      } else {
        state := Script;
        reconsume := true;
        r := NextChar;
      }
    }

    method HandleEsc(c: int) returns (r: Result)
      requires Valid() && emit == None && c == input.current
      modifies this, input
      ensures Valid() && Step(Lx(), r) == EscState(Cx(), old(Lx()), c)
    {
      hide Emit, EmitCurrent, EmitTemp, OpenTag, Current, InputIterator.Utf8Iterator.Valid;
      if c == DASH {
        state := EscDash;
        r := EmitCurrentChar();
      } else if c == LT {
        r := OpenTagIn(EscLt);
      } else if c == 0 {
        r := EmitChar(REPLACEMENT);
      } else {
        r := EmitCurrentChar();
      }
    }

    method HandleEscDash(c: int) returns (r: Result)
      requires Valid() && emit == None && c == input.current
      modifies this, input
      ensures Valid() && Step(Lx(), r) == EscDashState(Cx(), old(Lx()), c)
    {
      hide Emit, EmitCurrent, EmitTemp, OpenTag, Current, InputIterator.Utf8Iterator.Valid;
      if c == DASH {
        state := EscDashDash;
        r := EmitCurrentChar();
      } else if c == LT {
        r := OpenTagIn(EscLt);
      } else if c == 0 {
        state := Esc;
        r := EmitChar(REPLACEMENT);
      } else if c == -1 {
        state := Data;
        r := NextChar;
      } else {
        state := Esc;
        r := EmitCurrentChar();
      }
    }

    method HandleEscDashDash(c: int) returns (r: Result)
      requires Valid() && emit == None && c == input.current
      modifies this, input
      ensures Valid() && Step(Lx(), r) == EscDashDashState(Cx(), old(Lx()), c)
    {
      hide Emit, EmitCurrent, EmitTemp, OpenTag, Current, InputIterator.Utf8Iterator.Valid;
      if c == DASH {
        r := EmitCurrentChar();
      } else if c == LT {
        r := OpenTagIn(EscLt);
      } else if c == GT {
        state := Script;
        r := EmitCurrentChar();
      } else if c == 0 {
        state := Esc;
        r := EmitChar(REPLACEMENT);
      } else if c == -1 {
        state := Data;
        r := NextChar;
      } else {
        state := Esc;
        r := EmitCurrentChar();
      }
    }

    method HandleEscLt(c: int) returns (r: Result)
      requires Valid() && c == input.current && temp == [LT] && scriptBuffer == [] && MarkShown(Cx(), Lx())
      modifies this, input
      ensures Valid() && Step(Lx(), r) == EscLtState(Cx(), old(Lx()), c)
    {
      hide Emit, EmitCurrent, EmitTemp, OpenTag, Current, InputIterator.Utf8Iterator.Valid;
      if c == SLASH {
        state := EscEndTagOpen;
        AppendToTemporaryBuffer(c);
        r := NextChar;
      } else if IsAlpha(c) {
        state := DblStart;
        AppendToTemporaryBuffer(c);
        AppendToScriptBuffer(c);
        r := EmitTemporaryBuffer();
      } else {
        state := Esc;
        r := EmitTemporaryBuffer();
      }
    }

    method HandleDoubleName(c: int, ifScript: LexState, otherwise: LexState) returns (r: Result)
      requires Valid() && c == input.current
      modifies this, input
      ensures Valid() && Step(Lx(), r) == DoubleName(Cx(), old(Lx()), c, ifScript, otherwise)
    {
      hide NamesScript, IsAlpha, EndsName, EnsureLowercase, Emit, EmitCurrent, EmitTemp, OpenTag, Current;
      hide InputIterator.Utf8Iterator.Valid;
      var next := if NamesScript(scriptBuffer) then ifScript else otherwise;
      ghost var q := DoubleName(Cx(), Lx(), c, ifScript, otherwise);
      assert EndsName(c) ==> q == EmitCurrent(Cx(), Go(Lx(), next));
      assert !EndsName(c) && IsAlpha(c) ==> q == EmitCurrent(Cx(), AppendScript(Lx(), c));
      if EndsName(c) {
        state := next;
        r := EmitCurrentChar();
      } else if IsAlpha(c) {
        AppendToScriptBuffer(c);
        r := EmitCurrentChar();
      } else {
        state := otherwise;
        reconsume := true;
        r := NextChar;
      }
    }

    method HandleDbl(c: int) returns (r: Result)
      requires Valid() && c == input.current
      modifies this, input
      ensures Valid() && Step(Lx(), r) == DblState(Cx(), old(Lx()), c)
    {
      hide Emit, EmitCurrent, EmitTemp, OpenTag, Current, InputIterator.Utf8Iterator.Valid;
      if c == DASH {
        state := DblDash;
        r := EmitCurrentChar();
      } else if c == LT {
        state := DblLt;
        r := EmitCurrentChar();
      } else if c == 0 {
        r := EmitChar(REPLACEMENT);
      } else if c == -1 {
        state := Data;
        r := NextChar;
      } else {
        r := EmitCurrentChar();
      }
    }

    method HandleDblDash(c: int) returns (r: Result)
      requires Valid() && c == input.current
      modifies this, input
      ensures Valid() && Step(Lx(), r) == DblDashState(Cx(), old(Lx()), c)
    {
      hide Emit, EmitCurrent, EmitTemp, OpenTag, Current, InputIterator.Utf8Iterator.Valid;
      if c == DASH {
        state := DblDashDash;
        r := EmitCurrentChar();
      } else if c == LT {
        state := DblLt;
        r := EmitCurrentChar();
      } else if c == GT && state == DblDashDash {
        state := Script;
        r := EmitCurrentChar();
      } else if c == 0 {
        state := Dbl;
        r := EmitChar(REPLACEMENT);
      } else if c == -1 {
        state := Data;
        r := NextChar;
      } else {
        state := Dbl;
        r := EmitCurrentChar();
      }
    }

    method HandleDblLt(c: int) returns (r: Result)
      requires Valid() && c == input.current
      modifies this, input
      ensures Valid() && Step(Lx(), r) == DblLtState(Cx(), old(Lx()), c)
    {
      hide Emit, EmitCurrent, EmitTemp, OpenTag, Current, InputIterator.Utf8Iterator.Valid;
      if c == SLASH {
        state := DblEnd;
        scriptBuffer := [];
        r := EmitCurrentChar();
      } else {
        state := Dbl;
        reconsume := true;
        r := NextChar;
      }
    }

    /** The dispatch table. What each state function asserts of the buffers holds when it is called. */
    method HandleState(c: int) returns (r: Result)
      requires Valid() && c == input.current == Current(Cx(), Lx()) && emit == None && (InText(state) || state == Data)
      requires Buffered(Lx()) && (!Resting(state) && state != Data ==> MarkShown(Cx(), Lx()))
      modifies this, input
      ensures Valid() && Step(Lx(), r) == Dispatch(Cx(), old(Lx()))
    {
      hide PlainText, EndTagOpen, EndTagName, RawtextLtState, ScriptLtState, DashOr, EscState, EscDashState, EscDashDashState;
      hide EscLtState, DoubleName, DblState, DblDashState, DblLtState, EmitCurrent, MarkShown;
      hide InputIterator.Utf8Iterator.Valid;
      match state
      case Rawtext => r := HandlePlainText(c, RawtextLt);
      case RawtextLt => r := HandleRawtextLt(c);
      case RawtextEndTagOpen => r := HandleEndTagOpen(c, RawtextEndTagName, Rawtext);
      case RawtextEndTagName => r := HandleEndTagName(c, Rawtext);
      case Script => r := HandlePlainText(c, ScriptLt);
      case ScriptLt => r := HandleScriptLt(c);
      case ScriptEndTagOpen => r := HandleEndTagOpen(c, ScriptEndTagName, Script);
      case ScriptEndTagName => r := HandleEndTagName(c, Script);
      case EscStart => r := HandleDash(c, EscStartDash);
      case EscStartDash => r := HandleDash(c, EscDashDash);
      case Esc => r := HandleEsc(c);
      case EscDash => r := HandleEscDash(c);
      case EscDashDash => r := HandleEscDashDash(c);
      case EscLt => r := HandleEscLt(c);
      case EscEndTagOpen => r := HandleEndTagOpen(c, EscEndTagName, Esc);
      case EscEndTagName => r := HandleEndTagName(c, Esc);
      case DblStart => r := HandleDoubleName(c, Dbl, Esc);
      case Dbl => r := HandleDbl(c);
      case DblDash => r := HandleDblDash(c);
      case DblDashDash => r := HandleDblDash(c);
      case DblLt => r := HandleDblLt(c);
      case DblEnd => r := HandleDoubleName(c, Esc, Dbl);
      case Data => r := EmitCurrentChar();
    }

    // -------------------------------------------------------------------------------------
    // Tokens

    /** One pass of the loop of `gumbo_lex`. */
    method RunState() returns (r: Result)
      requires Valid() && emit == None && (InText(state) || state == Data)
      requires Buffered(Lx()) && (!Resting(state) && state != Data ==> MarkShown(Cx(), Lx()))
      modifies this, input
      ensures Valid() && Step(Lx(), r) == Turn(Cx(), old(Lx()))
    {
      hide Dispatch, InputIterator.Sound, InputIterator.StandsAt, InputIterator.Locates, InputIterator.InputStream,
        Buffered, MarkShown;
      assert input.current == Current(Cx(), Lx());
      r := HandleState(input.current);
      var shouldAdvance := !reconsume;
      reconsume := false;
      if r.NextChar? && shouldAdvance {
        NextInput();
      }
    }

    /** The loop of `gumbo_lex`, inside a call that began at `start` in the state `began`. */
    method LexLoop(ghost began: LexState, ghost from: nat, ghost start: nat) returns (token: Token)
      requires Valid() && Going(Cx(), Lx(), began, from, start) && from <= start
      modifies this, input
      ensures Valid() && Delivers(Cx(), began, from, start, token, Lx())
    {
      hide CodePoints, Going, Remaining, Turn, Closes, PastName, GoesOnIn, Delivers, Buffered, MarkShown;
      hide InputIterator.Sound, InputIterator.StandsAt, InputIterator.Locates, InputIterator.InputStream;
      ghost var cx := Cx();
      DecodedCodePoints(input.bytes, tagEnum, lastStartTag);
      while true
        invariant Valid() && Going(cx, Lx(), began, from, start)
        decreases Remaining(cx, Lx())
      {
        TurnDelivers(cx, Lx(), began, from, start);
        GoingBuffered(cx, Lx(), began, from, start);
        var r := RunState();
        assert !r.Failed?;
        if r.Done? { return r.token; }
        if state == BeforeAttrName || state == SelfClosing {
          LeftDelivers(cx, began, from, start, Lx());
          return LeftText;
        }
      }
    }

    /** `gumbo_lex` in the text states: it always returns, never fails, and accounts for exactly one
        code point of the input per character token. */
    method Lex(ghost from: nat) returns (token: Token)
      requires Valid() && Between(Cx(), Lx()) && Trace(Cx(), Lx(), from) && from <= input.index
      modifies this, input
      ensures Valid() && Delivers(Cx(), old(state), from, old(input.index), token, Lx())
    {
      hide EmitFromTemp, Going, Trace, Between, Delivers;
      hide InputIterator.Sound, InputIterator.StandsAt, InputIterator.Locates, InputIterator.InputStream;
      ghost var cx, start, began := Cx(), input.index, state;
      if Flushing(Lx()) {
        FlushDelivers(cx, Lx(), from);
        Flushed(cx, Lx());
      } else {
        StartsGoing(cx, Lx(), from);
      }
      var flushed := MaybeEmitFromTemporaryBuffer();
      if flushed.Some? { return flushed.value; }
      token := LexLoop(began, from, start);
    }

    /** Successive calls from a text state: the text is the input, code point by code point, exactly up to
        the first tag that closes it, or the end of the input. That tag is finished if a `>` ends its
        name; otherwise the tokenizer goes on to its attributes. */
    method ReadText() returns (text: seq<int>, last: Token)
      requires Valid() && !reconsume && emit == None && (state == Rawtext || state == Script)
      modifies this, input
      ensures Valid() && old(input.index) + |text| == FirstClosing(Cx(), old(state), old(input.index), old(input.index))
      ensures text == ShownAll(Cx().input[old(input.index)..old(input.index) + |text|])
      ensures Ends(Cx(), old(input.index) + |text|, last, input.index, state)
    {
      hide TagAt, Between, Trace, Raw, ModeAt, Closes, PastName, GoesOnIn;
      hide InputIterator.Sound, InputIterator.StandsAt, InputIterator.Locates, InputIterator.InputStream;
      ghost var cx, start, began := Cx(), input.index, state;
      InputIterator.StandsInside(input.bytes, input.start, input.index);
      StartsReading(cx, Lx());
      text := [];
      while true
        invariant Valid() && start <= input.index == start + |text| <= |cx.input|
        invariant Between(cx, Lx()) && Trace(cx, Lx(), start)
        invariant Raw(began) <==> Raw(state)
        invariant text == ShownAll(cx.input[start..start + |text|])
        invariant forall p: nat :: start <= p < start + |text| ==> !Closes(cx, began, start, p)
        decreases |cx.input| - input.index
      {
        ghost var now := state;
        last := Lex(start);
        ClosesAlike(cx, began, now, start, start + |text|);
        if !last.Char? {
          if !last.Eof? { ClosesInside(cx, began, start, start + |text|); }
          StopsFirst(cx, began, start, start + |text|);
          return;
        }
        ShownOneMore(cx.input, start, start + |text|);
        text := text + [last.c];
      }
    }
  }

  /** What comes behind the text: nothing, or an end tag for the element at hand. */
  ghost predicate Ends(cx: Context, stop: nat, last: Token, cursor: nat, state: LexState) {
    match last
    case Char(_) => false
    case Eof => stop == |cx.input|
    case EndTag(t) =>
      stop < |cx.input| && cx.lastStartTag == Some(t) && PastName(cx, stop, true, cursor) && state == Data
    case LeftText => stop < |cx.input| && PastName(cx, stop, false, cursor) && GoesOnIn(cx, stop, state)
  }

  /** A RAWTEXT or script text from its bytes: the tokenizer, driven by the iterator, spells the decoded
      input up to the first tag that closes the text. */
  method TextOf(bytes: seq<Utf8.Byte>, tabStop: nat, tagEnum: seq<int> -> int, lastStartTag: Option<int>, state: LexState)
    returns (text: seq<int>, last: Token)
    requires tabStop > 0 && (state == Rawtext || state == Script)
    ensures var cx := Context(InputIterator.InputStream(bytes), tagEnum, lastStartTag);
            && |text| == FirstClosing(cx, state, 0, 0) && text == ShownAll(cx.input[..|text|])
            && exists cursor: nat, s :: Ends(cx, |text|, last, cursor, s)
  {
    hide InputIterator.Sound, InputIterator.StandsAt, InputIterator.Locates, InputIterator.InputStream, Closes;
    var t := new Tokenizer(bytes, tabStop, tagEnum, lastStartTag, state);
    text, last := t.ReadText();
    assert t.Cx().input[0..|text|] == t.Cx().input[..|text|];
    assert Ends(t.Cx(), |text|, last, t.input.index, t.state);
  }

  lemma LeftDelivers(cx: Context, state: LexState, from: nat, start: nat, lx: Lexer)
    requires from <= start && Closes(cx, state, from, start) && PastName(cx, start, false, lx.cursor)
    requires GoesOnIn(cx, start, lx.state)
    ensures Delivers(cx, state, from, start, LeftText, lx)
  {}

  lemma ShownOneMore(s: seq<int>, i: nat, n: nat)
    requires i <= n < |s|
    ensures ShownAll(s[i..n + 1]) == ShownAll(s[i..n]) + [Shown(s[n])]
  {
    assert s[i..n + 1] == s[i..n] + [s[n]];
  }

  lemma ClosesAlike(cx: Context, state: LexState, now: LexState, from: nat, p: nat)
    requires from <= p && (Raw(state) <==> Raw(now))
    ensures Closes(cx, state, from, p) <==> Closes(cx, now, from, p)
  {
    hide TagAt, ModeAt, Raw;
  }

  lemma ClosesInside(cx: Context, state: LexState, from: nat, p: nat)
    requires from <= p && Closes(cx, state, from, p)
    ensures p < |cx.input|
  {
    hide ModeAt, Raw;
  }

  lemma StartsReading(cx: Context, lx: Lexer)
    requires lx.cursor <= |cx.input| && !lx.reconsume && lx.emit == None
    requires lx.state == Rawtext || lx.state == Script
    ensures Between(cx, lx) && Trace(cx, lx, lx.cursor)
  {}

  lemma StopsFirst(cx: Context, state: LexState, start: nat, stop: nat)
    requires start <= stop <= |cx.input| && (stop < |cx.input| ==> Closes(cx, state, start, stop))
    requires forall p: nat :: start <= p < stop ==> !Closes(cx, state, start, p)
    ensures stop == FirstClosing(cx, state, start, start)
  {
    hide Closes;
  }
}
